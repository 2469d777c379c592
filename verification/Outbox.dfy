/** The outbox table and its worker: claim a batch, publish in order until a failure, mark what was published. */
module Outbox {
  import opened Common
  import opened Entities
  import opened DeliveryOrder

  /** claimedAt is processing_at of a row in processing. Times are milliseconds. */
  datatype Row = Row(event: OutboxEvent, published: bool, claimedAt: Option<int>)

  /** The table in created_at order, the deliveries so far, and the worker's backoff. */
  datatype State = State(rows: seq<Row>, delivered: seq<OutboxEvent>, backoff: int)

  const CLAIM_TTL := 120000
  const FIRST_BACKOFF := 200
  const BACKOFF_LIMIT := 3000

  /** WHERE published = false AND (processing = false OR processing_at < now - 2 minutes). */
  predicate Eligible(row: Row, now: int) {
    !row.published && (row.claimedAt.None? || row.claimedAt.value < now - CLAIM_TTL)
  }

  predicate LiveClaim(row: Row, now: int) {
    !row.published && !Eligible(row, now)
  }

  function EligibleRows(rows: seq<Row>, now: int): seq<nat> {
    if rows == [] then []
    else
      var n := |rows| - 1;
      var earlier := EligibleRows(rows[..n], now);
      if Eligible(rows[n], now) then earlier + [n] else earlier
  }

  function UnpublishedRows(rows: seq<Row>): seq<nat> {
    if rows == [] then []
    else
      var n := |rows| - 1;
      var earlier := UnpublishedRows(rows[..n]);
      if rows[n].published then earlier else earlier + [n]
  }

  function First<T>(xs: seq<T>, limit: nat): seq<T> {
    if |xs| <= limit then xs else xs[..limit]
  }

  /** A batch size that is not positive means 50. */
  function Limit(batchSize: int): nat {
    if batchSize <= 0 then 50 else batchSize
  }

  function Batch(rows: seq<Row>, now: int, batchSize: int): seq<nat> {
    First(EligibleRows(rows, now), Limit(batchSize))
  }

  function Claimed(rows: seq<Row>, batch: seq<nat>, now: int): (rows': seq<Row>)
    ensures |rows'| == |rows|
  {
    if rows == [] then []
    else
      var n := |rows| - 1;
      Claimed(rows[..n], batch, now) + [if n in batch then rows[n].(claimedAt := Some(now)) else rows[n]]
  }

  lemma {:induction false} ClaimedAt(rows: seq<Row>, batch: seq<nat>, now: int, i: nat)
    requires i < |rows|
    ensures Claimed(rows, batch, now)[i] == if i in batch then rows[i].(claimedAt := Some(now)) else rows[i]
    decreases |rows|
  {
    if i < |rows| - 1 {
      ClaimedAt(rows[..|rows| - 1], batch, now, i);
    }
  }

  function Marked(rows: seq<Row>, ids: seq<Uuid>): (rows': seq<Row>)
    ensures |rows'| == |rows|
  {
    if rows == [] then []
    else
      var n := |rows| - 1;
      Marked(rows[..n], ids) +
      [if rows[n].event.id in ids then rows[n].(published := true, claimedAt := None) else rows[n]]
  }

  lemma {:induction false} MarkedAt(rows: seq<Row>, ids: seq<Uuid>, i: nat)
    requires i < |rows|
    ensures Marked(rows, ids)[i] ==
            if rows[i].event.id in ids then rows[i].(published := true, claimedAt := None) else rows[i]
    decreases |rows|
  {
    if i < |rows| - 1 {
      MarkedAt(rows[..|rows| - 1], ids, i);
    }
  }

  function Events(rows: seq<Row>): (es: seq<OutboxEvent>)
    ensures |es| == |rows| && forall i :: 0 <= i < |rows| ==> es[i] == rows[i].event
  {
    seq(|rows|, i requires 0 <= i < |rows| => rows[i].event)
  }

  function IdsOf(es: seq<OutboxEvent>): (ids: seq<Uuid>)
    ensures |ids| == |es| && forall i :: 0 <= i < |es| ==> ids[i] == es[i].id
  {
    seq(|es|, i requires 0 <= i < |es| => es[i].id)
  }

  datatype Fetch = Fetched | FetchFailed(claimed: bool)

  /** One turn of the worker's loop: the clock, whether the fetch fails (perhaps after its claim took effect),
      how many publishes succeed before one fails, whether that one was delivered all the same, and whether
      the mark succeeds. */
  datatype Poll = Poll(now: int, fetch: Fetch, accepted: nat, lost: bool, marked: bool)

  datatype Step = Inserted(event: OutboxEvent) | Polled(poll: Poll)

  /** The positions a poll delivers: the accepted prefix, and the failed publish if it arrived. */
  function DeliveredRows(batch: seq<nat>, p: Poll): (ps: seq<nat>)
    ensures |ps| <= |batch| && ps == batch[..|ps|]
  {
    if p.accepted >= |batch| then batch[..|batch|]
    else batch[..p.accepted + (if p.lost then 1 else 0)]
  }

  function AcceptedRows(batch: seq<nat>, p: Poll): seq<nat> {
    First(batch, p.accepted)
  }

  function Doubled(backoff: int): int {
    if backoff < BACKOFF_LIMIT then backoff * 2 else backoff
  }

  /** Position of a new row: after every row that is not newer. */
  function Place(rows: seq<Row>, at: int): (p: nat)
    ensures p <= |rows|
  {
    if rows == [] || rows[|rows| - 1].event.createdAt <= at then |rows| else Place(rows[..|rows| - 1], at)
  }

  function AfterInsert(s: State, e: OutboxEvent): State {
    s.(rows := InsertAt(s.rows, Place(s.rows, e.createdAt), Row(e, false, None)))
  }

  lemma {:induction false} EligiblePositions(rows: seq<Row>, now: int)
    ensures Ascending(EligibleRows(rows, now), |rows|)
    ensures forall i: nat {:trigger i in EligibleRows(rows, now)} :: i in EligibleRows(rows, now) <==> i < |rows| && Eligible(rows[i], now)
    decreases |rows|
  {
    if rows != [] {
      EligiblePositions(rows[..|rows| - 1], now);
    }
  }

  lemma {:induction false} UnpublishedPositions(rows: seq<Row>)
    ensures Ascending(UnpublishedRows(rows), |rows|)
    ensures forall i: nat {:trigger i in UnpublishedRows(rows)} :: i in UnpublishedRows(rows) <==> i < |rows| && !rows[i].published
    decreases |rows|
  {
    if rows != [] {
      UnpublishedPositions(rows[..|rows| - 1]);
    }
  }

  /** The log after delivering the events at these positions. */
  function Sent(log: seq<OutboxEvent>, es: seq<OutboxEvent>, ps: seq<nat>): seq<OutboxEvent>
    requires forall k :: 0 <= k < |ps| ==> ps[k] < |es|
  {
    if ps == [] then log else Sent(log, es, ps[..|ps| - 1]) + [es[ps[|ps| - 1]]]
  }

  lemma {:induction false} SentIs(log: seq<OutboxEvent>, es: seq<OutboxEvent>, ps: seq<nat>)
    requires forall k :: 0 <= k < |ps| ==> ps[k] < |es|
    ensures Sent(log, es, ps) == log + Pick(es, ps)
    decreases |ps|
  {
    if ps == [] {
      assert log + Pick(es, ps) == log;
    } else {
      SentIs(log, es, ps[..|ps| - 1]);
      assert Pick(es, ps) == Pick(es, ps[..|ps| - 1]) + [es[ps[|ps| - 1]]];
    }
  }

  function AfterPoll(s: State, batchSize: int, p: Poll): State {
    var batch := Batch(s.rows, p.now, batchSize);
    EligiblePositions(s.rows, p.now);
    var claimed := Claimed(s.rows, batch, p.now);
    var accepted := AcceptedRows(batch, p);
    var delivered := Sent(s.delivered, Events(s.rows), DeliveredRows(batch, p));
    match p.fetch
    case FetchFailed(effect) => s.(rows := if effect then claimed else s.rows, backoff := Doubled(s.backoff))
    case Fetched =>
      if batch == [] then s.(backoff := FIRST_BACKOFF)
      else if accepted == [] || !p.marked then State(claimed, delivered, Doubled(s.backoff))
      else State(Marked(claimed, IdsOf(Pick(Events(s.rows), accepted))), delivered, FIRST_BACKOFF)
  }

  /** The rows a poll publishes. */
  function MarkedRows(s: State, batchSize: int, p: Poll): seq<nat> {
    if p.fetch.Fetched? && p.marked then AcceptedRows(Batch(s.rows, p.now, batchSize), p) else []
  }

  /** The rows a poll claims. */
  function ClaimedRows(s: State, batchSize: int, p: Poll): seq<nat> {
    if p.fetch.Fetched? || p.fetch.claimed then Batch(s.rows, p.now, batchSize) else []
  }

  /** The rows a poll delivers, in order. */
  function RoundDelivers(s: State, batchSize: int, p: Poll): seq<nat> {
    if p.fetch.Fetched? then DeliveredRows(Batch(s.rows, p.now, batchSize), p) else []
  }

  predicate Enabled(s: State, step: Step) {
    step.Inserted? ==> forall i :: 0 <= i < |s.rows| ==> s.rows[i].event.id != step.event.id
  }

  function Apply(s: State, batchSize: int, step: Step): State {
    if !Enabled(s, step) then s
    else match step
      case Inserted(e) => AfterInsert(s, e)
      case Polled(p) => AfterPoll(s, batchSize, p)
  }

  function Run(s: State, batchSize: int, steps: seq<Step>): State {
    if steps == [] then s else Apply(Run(s, batchSize, steps[..|steps| - 1]), batchSize, steps[|steps| - 1])
  }

  const EMPTY := State([], [], FIRST_BACKOFF)

  // --- What a fetch takes -------------------------------------------------------------------------------

  /** How many of the first n rows are eligible. */
  function EligibleBefore(rows: seq<Row>, now: int, n: nat): nat
    requires n <= |rows|
  {
    if n == 0 then 0 else EligibleBefore(rows, now, n - 1) + (if Eligible(rows[n - 1], now) then 1 else 0)
  }

  predicate IsNext(rows: seq<Row>, now: int, batchSize: int, i: nat)
    requires i < |rows|
  {
    Eligible(rows[i], now) && EligibleBefore(rows, now, i) < Limit(batchSize)
  }

  lemma {:induction false} EligibleCount(rows: seq<Row>, now: int, n: nat)
    requires n <= |rows|
    ensures EligibleBefore(rows, now, n) == |EligibleRows(rows[..n], now)|
  {
    if n > 0 {
      EligibleCount(rows, now, n - 1);
      assert rows[..n][..n - 1] == rows[..n - 1];
    }
  }

  lemma {:induction false} EligibleRowsExtend(rows: seq<Row>, now: int, n: nat)
    requires n <= |rows|
    ensures EligibleRows(rows[..n], now) <= EligibleRows(rows, now)
    decreases |rows|
  {
    if n < |rows| {
      var k := |rows| - 1;
      EligibleRowsExtend(rows[..k], now, n);
      assert rows[..k][..n] == rows[..n];
    } else {
      assert rows[..n] == rows;
    }
  }

  /** An eligible row stands in the list of eligible rows after those before it. */
  lemma EligiblePlace(rows: seq<Row>, now: int, i: nat)
    requires i < |rows| && Eligible(rows[i], now)
    ensures var k := EligibleBefore(rows, now, i);
            k < |EligibleRows(rows, now)| && EligibleRows(rows, now)[k] == i
  {
    EligibleCount(rows, now, i);
    EligibleRowsExtend(rows, now, i + 1);
    assert rows[..i + 1][..i] == rows[..i];
    assert EligibleRows(rows[..i + 1], now) == EligibleRows(rows[..i], now) + [i];
  }

  /** A fetch takes a row exactly when it is eligible and fewer than the limit of eligible rows come before it. */
  lemma BatchIff(rows: seq<Row>, now: int, batchSize: int, i: nat)
    requires i < |rows|
    ensures i in Batch(rows, now, batchSize) <==> IsNext(rows, now, batchSize, i)
    ensures IsNext(rows, now, batchSize, i) <==>
            && !rows[i].published && (rows[i].claimedAt.None? || rows[i].claimedAt.value < now - 120000)
            && EligibleBefore(rows, now, i) < (if batchSize <= 0 then 50 else batchSize)
  {
    var all, batch := EligibleRows(rows, now), Batch(rows, now, batchSize);
    EligiblePositions(rows, now);
    if i in batch {
      var k :| 0 <= k < |batch| && batch[k] == i;
      assert all[k] == i && i in all;
      EligiblePlace(rows, now, i);
      var l := EligibleBefore(rows, now, i);
      assert all[l] == all[k];
      assert l == k;
    }
    if IsNext(rows, now, batchSize, i) {
      EligiblePlace(rows, now, i);
      assert batch[EligibleBefore(rows, now, i)] == i;
    }
  }

  // --- What every step keeps --------------------------------------------------------------------------

  /** 200 ms doubled at most four times. */
  predicate BackoffSound(backoff: int) {
    backoff in {200, 400, 800, 1600, 3200}
  }

  predicate SameId(a: Row, b: Row) {
    a.event.id == b.event.id
  }

  ghost predicate IdsDistinct(rows: seq<Row>) {
    forall i, j {:trigger SameId(rows[i], rows[j])} :: 0 <= i < j < |rows| ==> !SameId(rows[i], rows[j])
  }

  ghost predicate Inv(s: State) {
    && IdsDistinct(s.rows)
    && (forall i {:trigger s.rows[i].published} :: 0 <= i < |s.rows| && s.rows[i].published ==> s.rows[i].event in s.delivered)
    && (forall q :: 0 <= q < |s.delivered| ==> s.delivered[q] in Events(s.rows))
    && BackoffSound(s.backoff)
  }

  lemma DistinctEvents(rows: seq<Row>)
    requires IdsDistinct(rows)
    ensures Distinct(Events(rows))
  {
    forall i, j | 0 <= i < j < |rows|
      ensures Events(rows)[i] != Events(rows)[j]
    {
      assert !SameId(rows[i], rows[j]);
    }
  }

  lemma EventsAfterInsert(rows: seq<Row>, p: nat, row: Row)
    requires p <= |rows|
    ensures Events(InsertAt(rows, p, row)) == InsertAt(Events(rows), p, row.event)
    ensures forall x :: x in Events(rows) ==> x in Events(InsertAt(rows, p, row))
  {
    var rows' := InsertAt(rows, p, row);
    assert Events(rows') == InsertAt(Events(rows), p, row.event);
    forall x | x in Events(rows)
      ensures x in Events(rows')
    {
      var i :| 0 <= i < |rows| && Events(rows)[i] == x;
      assert Events(rows')[if i < p then i else i + 1] == x;
    }
  }

  lemma IdsAfterInsert(rows: seq<Row>, p: nat, row: Row)
    requires p <= |rows| && IdsDistinct(rows)
    requires forall i :: 0 <= i < |rows| ==> rows[i].event.id != row.event.id
    ensures IdsDistinct(InsertAt(rows, p, row))
  {
    var rows' := InsertAt(rows, p, row);
    forall i, j | 0 <= i < j < |rows'|
      ensures !SameId(rows'[i], rows'[j])
    {
      if i != p && j != p {
        assert !SameId(rows[if i < p then i else i - 1], rows[if j < p then j else j - 1]);
      }
    }
  }

  lemma NewIsUndelivered(s: State, e: OutboxEvent)
    requires Inv(s) && Enabled(s, Inserted(e))
    ensures e !in s.delivered
  {
    forall q | 0 <= q < |s.delivered|
      ensures s.delivered[q] != e
    {
      assert s.delivered[q] in Events(s.rows);
    }
  }

  lemma InsertKeepsInv(s: State, e: OutboxEvent)
    requires Inv(s) && Enabled(s, Inserted(e))
    ensures Inv(AfterInsert(s, e))
  {
    var p := Place(s.rows, e.createdAt);
    EventsAfterInsert(s.rows, p, Row(e, false, None));
    IdsAfterInsert(s.rows, p, Row(e, false, None));
  }

  lemma SameEvents(rows: seq<Row>, batch: seq<nat>, now: int, ids: seq<Uuid>)
    ensures Events(Claimed(rows, batch, now)) == Events(rows)
    ensures Events(Marked(rows, ids)) == Events(rows)
  {
    forall i: nat | i < |rows|
      ensures Events(Claimed(rows, batch, now))[i] == Events(rows)[i] == Events(Marked(rows, ids))[i]
    {
      ClaimedAt(rows, batch, now, i);
      MarkedAt(rows, ids, i);
    }
  }

  /** The rows a poll touches are those of its batch; those it marks were delivered in it. */
  lemma PollRows(s: State, batchSize: int, p: Poll)
    requires IdsDistinct(s.rows)
    ensures var batch := Batch(s.rows, p.now, batchSize);
            Ascending(batch, |s.rows|) && Ascending(DeliveredRows(batch, p), |s.rows|) &&
            AcceptedRows(batch, p) <= DeliveredRows(batch, p)
    ensures Events(AfterPoll(s, batchSize, p).rows) == Events(s.rows)
  {
    EligiblePositions(s.rows, p.now);
    PollEvents(s, batchSize, p);
  }

  /** A turn changes no event and no place in the table. */
  lemma PollEvents(s: State, batchSize: int, p: Poll)
    ensures Events(AfterPoll(s, batchSize, p).rows) == Events(s.rows)
  {
    var batch := Batch(s.rows, p.now, batchSize);
    var claimed := Claimed(s.rows, batch, p.now);
    EligiblePositions(s.rows, p.now);
    SameEvents(s.rows, batch, p.now, []);
    SameEvents(claimed, [], p.now, IdsOf(Pick(Events(s.rows), AcceptedRows(batch, p))));
  }

  /** What a successful mark publishes is exactly the accepted prefix of the batch. */
  lemma MarkPublishesAccepted(rows: seq<Row>, batch: seq<nat>, accepted: seq<nat>, now: int, i: nat)
    requires IdsDistinct(rows) && Ascending(batch, |rows|) && accepted <= batch && i < |rows|
    ensures Ascending(accepted, |rows|)
    ensures Marked(Claimed(rows, batch, now), IdsOf(Pick(Events(rows), accepted)))[i] ==
            if i in accepted then Row(rows[i].event, true, None) else Claimed(rows, batch, now)[i]
  {
    var ids := IdsOf(Pick(Events(rows), accepted));
    ClaimedAt(rows, batch, now, i);
    MarkedAt(Claimed(rows, batch, now), ids, i);
    if rows[i].event.id in ids {
      var k :| 0 <= k < |ids| && ids[k] == rows[i].event.id;
      assert SameId(rows[accepted[k]], rows[i]) && SameId(rows[i], rows[accepted[k]]);
    }
    if i in accepted {
      var k :| 0 <= k < |accepted| && accepted[k] == i;
      assert ids[k] == rows[i].event.id;
    }
  }

  /** What a poll does to one row. */
  lemma RowAfterPoll(s: State, batchSize: int, p: Poll, i: nat)
    requires IdsDistinct(s.rows) && i < |s.rows|
    ensures |AfterPoll(s, batchSize, p).rows| == |s.rows|
    ensures AfterPoll(s, batchSize, p).rows[i] ==
            if i in MarkedRows(s, batchSize, p) then Row(s.rows[i].event, true, None)
            else if i in ClaimedRows(s, batchSize, p) then s.rows[i].(claimedAt := Some(p.now))
            else s.rows[i]
  {
    var batch := Batch(s.rows, p.now, batchSize);
    PollRows(s, batchSize, p);
    ClaimedAt(s.rows, batch, p.now, i);
    MarkPublishesAccepted(s.rows, batch, AcceptedRows(batch, p), p.now, i);
  }

  lemma DeliveredAfterPoll(s: State, batchSize: int, p: Poll)
    requires IdsDistinct(s.rows)
    ensures Ascending(RoundDelivers(s, batchSize, p), |s.rows|)
    ensures AfterPoll(s, batchSize, p).delivered == s.delivered + Pick(Events(s.rows), RoundDelivers(s, batchSize, p))
  {
    PollRows(s, batchSize, p);
    SentIs(s.delivered, Events(s.rows), RoundDelivers(s, batchSize, p));
  }

  /** The first n rows of a batch are the next ones with fewer than n eligible rows before them. */
  lemma BatchPrefixIff(rows: seq<Row>, now: int, batchSize: int, n: nat, i: nat)
    requires n <= |Batch(rows, now, batchSize)| && i < |rows|
    ensures i in Batch(rows, now, batchSize)[..n] <==> IsNext(rows, now, batchSize, i) && EligibleBefore(rows, now, i) < n
  {
    var all, batch := EligibleRows(rows, now), Batch(rows, now, batchSize);
    EligiblePositions(rows, now);
    BatchIff(rows, now, batchSize, i);
    if i in batch {
      EligiblePlace(rows, now, i);
      var k :| 0 <= k < |batch| && batch[k] == i;
      assert all[EligibleBefore(rows, now, i)] == all[k];
      assert k < n ==> batch[..n][k] == i;
      if i in batch[..n] {
        var l :| 0 <= l < n && batch[..n][l] == i;
        assert all[l] == all[k];
      }
    }
  }

  lemma BatchHolds(rows: seq<Row>, now: int, batchSize: int, i: nat)
    requires i < |rows| && IsNext(rows, now, batchSize, i)
    ensures EligibleBefore(rows, now, i) < |Batch(rows, now, batchSize)|
  {
    EligiblePlace(rows, now, i);
  }

  lemma TurnPublishesIff(s: State, batchSize: int, p: Poll, i: nat)
    requires i < |s.rows|
    ensures i in MarkedRows(s, batchSize, p) <==>
            && p.fetch == Fetched && p.marked
            && IsNext(s.rows, p.now, batchSize, i) && EligibleBefore(s.rows, p.now, i) < p.accepted
  {
    var batch := Batch(s.rows, p.now, batchSize);
    var n := if p.accepted <= |batch| then p.accepted else |batch|;
    BatchPrefixIff(s.rows, p.now, batchSize, n, i);
    assert AcceptedRows(batch, p) == batch[..n];
    if IsNext(s.rows, p.now, batchSize, i) {
      BatchHolds(s.rows, p.now, batchSize, i);
    }
  }

  /** A turn delivers the next eligible rows, as many as are accepted, and the one whose publish failed if it arrived. */
  lemma TurnDeliversIff(s: State, batchSize: int, p: Poll, i: nat)
    requires i < |s.rows|
    ensures i in RoundDelivers(s, batchSize, p) <==>
            && p.fetch == Fetched && IsNext(s.rows, p.now, batchSize, i)
            && EligibleBefore(s.rows, p.now, i) < p.accepted + (if p.lost then 1 else 0)
  {
    var batch := Batch(s.rows, p.now, batchSize);
    var n := |DeliveredRows(batch, p)|;
    BatchPrefixIff(s.rows, p.now, batchSize, n, i);
    if IsNext(s.rows, p.now, batchSize, i) {
      BatchHolds(s.rows, p.now, batchSize, i);
    }
  }

  /** What a turn leaves of a row: published if it is among the next and was accepted and the mark came through;
      else claimed if it is among the next and the fetch took effect. */
  lemma RowAfterTurn(s: State, batchSize: int, p: Poll, i: nat)
    requires IdsDistinct(s.rows) && i < |s.rows|
    ensures |AfterPoll(s, batchSize, p).rows| == |s.rows|
    ensures var next, rank := IsNext(s.rows, p.now, batchSize, i), EligibleBefore(s.rows, p.now, i);
            AfterPoll(s, batchSize, p).rows[i] ==
            if p.fetch == Fetched && p.marked && next && rank < p.accepted then Row(s.rows[i].event, true, None)
            else if p.fetch != FetchFailed(false) && next then Row(s.rows[i].event, s.rows[i].published, Some(p.now))
            else s.rows[i]
  {
    RowAfterPoll(s, batchSize, p, i);
    TurnPublishesIff(s, batchSize, p, i);
    BatchIff(s.rows, p.now, batchSize, i);
  }

  lemma BackoffStaysSound(backoff: int)
    requires BackoffSound(backoff)
    ensures BackoffSound(Doubled(backoff)) && BackoffSound(FIRST_BACKOFF)
  {
  }

  lemma DeliveriesStay(s: State, batchSize: int, p: Poll)
    requires Inv(s)
    ensures s.delivered <= AfterPoll(s, batchSize, p).delivered
    ensures forall q :: 0 <= q < |AfterPoll(s, batchSize, p).delivered| ==>
              AfterPoll(s, batchSize, p).delivered[q] in Events(s.rows)
  {
    DeliveredAfterPoll(s, batchSize, p);
    var ps := RoundDelivers(s, batchSize, p);
    forall k | 0 <= k < |ps|
      ensures Pick(Events(s.rows), ps)[k] in Events(s.rows)
    {
      assert Events(s.rows)[ps[k]] in Events(s.rows);
    }
  }

  lemma PublishedWereDelivered(s: State, batchSize: int, p: Poll, i: nat)
    requires Inv(s) && i < |s.rows|
    ensures |AfterPoll(s, batchSize, p).rows| == |s.rows|
    ensures AfterPoll(s, batchSize, p).rows[i].published ==> s.rows[i].event in AfterPoll(s, batchSize, p).delivered
  {
    RowAfterPoll(s, batchSize, p, i);
    DeliveredAfterPoll(s, batchSize, p);
    MarkedAreDelivered(s, batchSize, p);
    DistinctEvents(s.rows);
    PickMembers(Events(s.rows), RoundDelivers(s, batchSize, p), i);
  }

  lemma MarkedAreDelivered(s: State, batchSize: int, p: Poll)
    ensures MarkedRows(s, batchSize, p) <= RoundDelivers(s, batchSize, p)
  {
  }

  lemma PollKeepsInv(s: State, batchSize: int, p: Poll)
    requires Inv(s)
    ensures Inv(AfterPoll(s, batchSize, p))
  {
    var s' := AfterPoll(s, batchSize, p);
    PollRows(s, batchSize, p);
    DeliveriesStay(s, batchSize, p);
    forall i | 0 <= i < |s'.rows|
      ensures s'.rows[i].event == s.rows[i].event
    {
      assert Events(s'.rows)[i] == Events(s.rows)[i];
    }
    forall i | 0 <= i < |s'.rows| && s'.rows[i].published
      ensures s'.rows[i].event in s'.delivered
    {
      PublishedWereDelivered(s, batchSize, p, i);
    }
    forall i, j | 0 <= i < j < |s'.rows|
      ensures !SameId(s'.rows[i], s'.rows[j])
    {
      assert !SameId(s.rows[i], s.rows[j]);
    }
    BackoffStaysSound(s.backoff);
  }

  lemma {:induction false} RunKeepsInv(s: State, batchSize: int, steps: seq<Step>)
    requires Inv(s)
    ensures Inv(Run(s, batchSize, steps))
    decreases |steps|
  {
    if steps != [] {
      var n := |steps| - 1;
      RunKeepsInv(s, batchSize, steps[..n]);
      if Enabled(Run(s, batchSize, steps[..n]), steps[n]) {
        match steps[n]
        case Inserted(e) => InsertKeepsInv(Run(s, batchSize, steps[..n]), e);
        case Polled(p) => PollKeepsInv(Run(s, batchSize, steps[..n]), batchSize, p);
      }
    }
  }

  // --- Order of the table ------------------------------------------------------------------------------

  predicate ByCreation(rows: seq<Row>) {
    forall i, j :: 0 <= i < j < |rows| ==> rows[i].event.createdAt <= rows[j].event.createdAt
  }

  lemma {:induction false} PlaceIsBetween(rows: seq<Row>, at: int)
    requires ByCreation(rows)
    ensures forall i :: 0 <= i < Place(rows, at) ==> rows[i].event.createdAt <= at
    ensures forall i :: Place(rows, at) <= i < |rows| ==> at < rows[i].event.createdAt
    decreases |rows|
  {
    if rows != [] && rows[|rows| - 1].event.createdAt > at {
      var before := rows[..|rows| - 1];
      PlaceIsBetween(before, at);
      assert forall i :: 0 <= i < |before| ==> before[i] == rows[i];
    }
  }

  lemma StepKeepsOrder(s: State, batchSize: int, step: Step)
    requires Inv(s) && ByCreation(s.rows)
    ensures ByCreation(Apply(s, batchSize, step).rows)
  {
    match step
    case Inserted(e) => PlaceIsBetween(s.rows, e.createdAt);
    case Polled(p) =>
      PollRows(s, batchSize, p);
      SameEventsSameOrder(s.rows, AfterPoll(s, batchSize, p).rows);
  }

  lemma SameEventsSameOrder(rows: seq<Row>, rows': seq<Row>)
    requires ByCreation(rows) && Events(rows') == Events(rows)
    ensures ByCreation(rows')
  {
    assert |rows'| == |Events(rows')| == |rows|;
    forall i | 0 <= i < |rows'|
      ensures rows'[i].event == rows[i].event
    {
      assert Events(rows')[i] == Events(rows)[i];
    }
  }

  /** The table stays in created_at order, so a fetch takes the oldest eligible events. */
  lemma {:induction false} TableIsByCreation(batchSize: int, steps: seq<Step>)
    ensures ByCreation(Run(EMPTY, batchSize, steps).rows)
    decreases |steps|
  {
    if steps != [] {
      var n := |steps| - 1;
      TableIsByCreation(batchSize, steps[..n]);
      RunKeepsInv(EMPTY, batchSize, steps[..n]);
      StepKeepsOrder(Run(EMPTY, batchSize, steps[..n]), batchSize, steps[n]);
    }
  }

  // --- No loss ---------------------------------------------------------------------------------------------

  /** Under every pattern of failures: an event is marked only after it was delivered, only stored events
      are delivered, and the backoff is 200 ms doubled at most four times. */
  lemma NoEventIsLost(batchSize: int, steps: seq<Step>)
    ensures var s := Run(EMPTY, batchSize, steps);
            && (forall i :: 0 <= i < |s.rows| && s.rows[i].published ==> s.rows[i].event in s.delivered)
            && (forall q :: 0 <= q < |s.delivered| ==> s.delivered[q] in Events(s.rows))
            && s.backoff in {200, 400, 800, 1600, 3200}
  {
    RunKeepsInv(EMPTY, batchSize, steps);
  }
}
