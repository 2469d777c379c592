/** How many deliveries await their mark: the count after every step, and exactly when it stays within a batch. */
module OutboxBound {
  import opened Entities
  import opened DeliveryOrder
  import opened Outbox
  import opened OutboxQueue
  import opened OutboxTheorems

  function SetOf(ps: seq<nat>): set<nat> {
    set i | i in ps
  }

  lemma {:induction false} SizeOfSet(ps: seq<nat>, n: nat)
    requires Ascending(ps, n)
    ensures |SetOf(ps)| == |ps|
    decreases |ps|
  {
    if ps != [] {
      var k := |ps| - 1;
      SizeOfSet(ps[..k], n);
      assert SetOf(ps) == SetOf(ps[..k]) + {ps[k]};
    }
  }

  lemma SizeOfUnion(a: set<nat>, d: set<nat>, m: set<nat>)
    requires m <= d
    ensures |(a + d) - m| == |a - d| + |d| - |m|
  {
    assert (a + d) - m == (a - d) + (d - m);
  }

  /** The rows a turn delivers, as a set. */
  function Delivers(s: State, batchSize: int, p: Poll): set<nat> {
    SetOf(RoundDelivers(s, batchSize, p))
  }

  lemma PendingSet(s: State, batchSize: int, p: Poll)
    requires Inv(s)
    ensures Unmarked(AfterPoll(s, batchSize, p)) ==
            (Unmarked(s) + Delivers(s, batchSize, p)) - SetOf(MarkedRows(s, batchSize, p))
  {
    forall i: nat
      ensures i in Unmarked(AfterPoll(s, batchSize, p)) <==>
              i in (Unmarked(s) + Delivers(s, batchSize, p)) - SetOf(MarkedRows(s, batchSize, p))
    {
      PendingAfterPoll(s, batchSize, p, i);
    }
  }

  lemma PrefixAscends(ps: seq<nat>, qs: seq<nat>, n: nat)
    requires ps <= qs && Ascending(qs, n)
    ensures Ascending(ps, n) && SetOf(ps) <= SetOf(qs)
  {
    assert forall k :: 0 <= k < |ps| ==> ps[k] == qs[k] && qs[k] in qs;
  }

  /** After a turn: the pending rows it does not deliver again, and what it delivers without a mark. */
  lemma PendingCount(s: State, batchSize: int, p: Poll)
    requires Inv(s)
    ensures |Unmarked(AfterPoll(s, batchSize, p))| ==
            |Unmarked(s) - Delivers(s, batchSize, p)| + |RoundDelivers(s, batchSize, p)| - |MarkedRows(s, batchSize, p)|
  {
    var delivered, marked := RoundDelivers(s, batchSize, p), MarkedRows(s, batchSize, p);
    DeliveredAfterPoll(s, batchSize, p);
    MarkedAreDelivered(s, batchSize, p);
    PrefixAscends(marked, delivered, |s.rows|);
    SizeOfSet(delivered, |s.rows|);
    SizeOfSet(marked, |s.rows|);
    PendingSet(s, batchSize, p);
    SizeOfUnion(Unmarked(s), SetOf(delivered), SetOf(marked));
  }

  // --- A new row ---------------------------------------------------------------------------------------

  function Shift(i: nat, p: nat): nat {
    if i < p then i else i + 1
  }

  function Shifted(ps: set<nat>, p: nat): set<nat> {
    set i | i in ps :: Shift(i, p)
  }

  lemma {:induction false} ShiftedSize(ps: set<nat>, p: nat)
    ensures |Shifted(ps, p)| == |ps|
    decreases |ps|
  {
    if ps == {} {
      assert Shifted(ps, p) == {};
    } else {
      var i :| i in ps;
      var rest := ps - {i};
      ShiftedSize(rest, p);
      ShiftedOne(rest, i, p);
      assert rest + {i} == ps;
    }
  }

  lemma ShiftedOne(ps: set<nat>, i: nat, p: nat)
    requires i !in ps
    ensures Shifted(ps + {i}, p) == Shifted(ps, p) + {Shift(i, p)} && Shift(i, p) !in Shifted(ps, p)
  {
    forall j | j in Shifted(ps, p) + {Shift(i, p)}
      ensures j in Shifted(ps + {i}, p)
    {
      if j in Shifted(ps, p) {
        var k :| k in ps && j == Shift(k, p);
        assert k in ps + {i};
      } else {
        assert i in ps + {i};
      }
    }
  }

  lemma RowMovesOn(s: State, e: OutboxEvent, i: nat)
    requires Inv(s) && Enabled(s, Inserted(e)) && i < |s.rows|
    ensures Shift(i, Place(s.rows, e.createdAt)) in Unmarked(AfterInsert(s, e)) <==> i in Unmarked(s)
  {
    RowsAfterInsert(s, e, Shift(i, Place(s.rows, e.createdAt)));
  }

  lemma NewRowIsNotPending(s: State, e: OutboxEvent)
    requires Inv(s) && Enabled(s, Inserted(e))
    ensures Place(s.rows, e.createdAt) !in Unmarked(AfterInsert(s, e))
  {
    NewIsUndelivered(s, e);
    RowsAfterInsert(s, e, Place(s.rows, e.createdAt));
  }

  /** A new row is not pending, and the pending rows behind it move on by one. */
  lemma PendingAfterNewRow(s: State, e: OutboxEvent)
    requires Inv(s) && Enabled(s, Inserted(e))
    ensures Unmarked(AfterInsert(s, e)) == Shifted(Unmarked(s), Place(s.rows, e.createdAt))
  {
    var p := Place(s.rows, e.createdAt);
    NewRowIsNotPending(s, e);
    forall j: nat
      ensures j in Unmarked(AfterInsert(s, e)) <==> j in Shifted(Unmarked(s), p)
    {
      if j <= |s.rows| && j != p {
        var i := if j < p then j else j - 1;
        RowMovesOn(s, e, i);
        assert Shift(i, p) == j;
      }
    }
  }

  // --- The bound --------------------------------------------------------------------------------------

  predicate WithinBatch(s: State, batchSize: int) {
    |Unmarked(s)| <= Limit(batchSize)
  }

  /** The turn leaves too many pending rows out of what it delivers again, for the deliveries it does not mark. */
  predicate Exceeds(s: State, batchSize: int, step: Step) {
    step.Polled? &&
    |Unmarked(s) - Delivers(s, batchSize, step.poll)| >
      Limit(batchSize) - (|RoundDelivers(s, batchSize, step.poll)| - |MarkedRows(s, batchSize, step.poll)|)
  }

  /** A step keeps the pending deliveries within a batch unless it is such a turn, and only then does it not. */
  lemma StepBound(s: State, batchSize: int, step: Step)
    requires Inv(s) && WithinBatch(s, batchSize)
    ensures WithinBatch(Apply(s, batchSize, step), batchSize) <==> !Exceeds(s, batchSize, step)
  {
    match step
    case Inserted(e) =>
      if Enabled(s, step) {
        PendingAfterNewRow(s, e);
        ShiftedSize(Unmarked(s), Place(s.rows, e.createdAt));
      }
    case Polled(p) => PendingCount(s, batchSize, p);
  }

  ghost predicate AlwaysWithinBatch(batchSize: int, steps: seq<Step>) {
    && WithinBatch(Run(EMPTY, batchSize, steps), batchSize)
    && (steps != [] ==> AlwaysWithinBatch(batchSize, steps[..|steps| - 1]))
  }

  ghost predicate NoneExceeds(batchSize: int, steps: seq<Step>) {
    steps != [] ==>
      var n := |steps| - 1;
      NoneExceeds(batchSize, steps[..n]) && !Exceeds(Run(EMPTY, batchSize, steps[..n]), batchSize, steps[n])
  }

  /** All along a run at most a batch of events is delivered and unmarked exactly when no turn delivers, without
      a mark, more than the pending rows it does not deliver again leave room for. */
  lemma {:induction false} BoundIff(batchSize: int, steps: seq<Step>)
    ensures AlwaysWithinBatch(batchSize, steps) <==> NoneExceeds(batchSize, steps)
    decreases |steps|
  {
    if steps == [] {
      assert Unmarked(EMPTY) == {};
    } else {
      var n := |steps| - 1;
      BoundIff(batchSize, steps[..n]);
      if AlwaysWithinBatch(batchSize, steps[..n]) {
        RunKeepsInv(EMPTY, batchSize, steps[..n]);
        StepBound(Run(EMPTY, batchSize, steps[..n]), batchSize, steps[n]);
      }
    }
  }

  // --- What claims have to do with it --------------------------------------------------------------------

  ghost predicate PendingIsClaimed(s: State, now: int) {
    exists i: nat :: i in Unmarked(s) && LiveClaim(s.rows[i], now)
  }

  /** A turn that delivers a whole batch and marks nothing breaks the bound exactly when a pending row is under
      a live claim. */
  lemma UnmarkedBatchBreaksIff(s: State, batchSize: int, p: Poll)
    requires Inv(s) && PendingInHead(s, batchSize)
    requires p.fetch.Fetched? && p.accepted >= Limit(batchSize) && !p.marked
    requires |EligibleRows(s.rows, p.now)| >= Limit(batchSize)
    ensures !WithinBatch(AfterPoll(s, batchSize, p), batchSize) <==> PendingIsClaimed(s, p.now)
  {
    var batch := Batch(s.rows, p.now, batchSize);
    assert RoundDelivers(s, batchSize, p) == batch;
    RetriedIff(s, batchSize, p.now);
    PendingCount(s, batchSize, p);
    var left := Unmarked(s) - Delivers(s, batchSize, p);
    if i: nat :| i in Unmarked(s) && LiveClaim(s.rows[i], p.now) {
      if i in batch {
        BatchIsEligible(s.rows, p.now, batchSize, i);
      }
      assert i in left;
    } else {
      assert left == {};
    }
  }

  /** Whatever a turn delivers and marks, it keeps the bound while no pending row is under a live claim. */
  lemma UnclaimedKeepsBound(s: State, batchSize: int, p: Poll)
    requires Inv(s) && PendingInHead(s, batchSize) && !PendingIsClaimed(s, p.now)
    ensures WithinBatch(AfterPoll(s, batchSize, p), batchSize)
  {
    var s', batch := AfterPoll(s, batchSize, p), Batch(s.rows, p.now, batchSize);
    RetriedIff(s, batchSize, p.now);
    forall i: nat | i in Unmarked(s')
      ensures i in batch
    {
      PendingAfterPoll(s, batchSize, p, i);
    }
    FewerElements(Unmarked(s'), batch);
  }
}
