/** The worker as it runs: one object that claims, publishes and marks, against the step functions of Outbox. */
module OutboxWorker {
  import opened Common
  import opened Entities
  import opened DeliveryOrder
  import opened Outbox

  function Rounds(polls: seq<Poll>): (steps: seq<Step>)
    ensures |steps| == |polls| && forall i :: 0 <= i < |polls| ==> steps[i] == Polled(polls[i])
  {
    seq(|polls|, i requires 0 <= i < |polls| => Polled(polls[i]))
  }

  lemma {:induction false} NothingClaimed(rows: seq<Row>, now: int)
    ensures Claimed(rows, [], now) == rows
    decreases |rows|
  {
    if rows != [] {
      NothingClaimed(rows[..|rows| - 1], now);
    }
  }

  /** Row i after a fetch at this time. */
  function RowFetched(rows: seq<Row>, now: int, limit: int, i: nat): Row
    requires i < |rows|
  {
    if IsNext(rows, now, limit, i) then rows[i].(claimedAt := Some(now)) else rows[i]
  }

  function RowMarked(row: Row, ids: seq<Uuid>): Row {
    if row.event.id in ids then Row(row.event, true, None) else row
  }

  /** The rows after a fetch: a row is claimed if it is eligible and fewer than the limit of eligible rows come
      before it; the others stay as they are. */
  ghost predicate NextClaimed(rows: seq<Row>, now: int, limit: int, rows': seq<Row>) {
    |rows'| == |rows| && forall i :: 0 <= i < |rows| ==> rows'[i] == RowFetched(rows, now, limit, i)
  }

  /** The events of those rows, each at the place its row has among the eligible ones. */
  ghost predicate NextEvents(rows: seq<Row>, now: int, limit: int, events: seq<OutboxEvent>) {
    var eligible := EligibleBefore(rows, now, |rows|);
    && |events| == (if eligible <= Limit(limit) then eligible else Limit(limit))
    && forall i :: 0 <= i < |rows| && IsNext(rows, now, limit, i) ==>
         EligibleBefore(rows, now, i) < |events| && events[EligibleBefore(rows, now, i)] == rows[i].event
  }

  /** The rows after a mark: those with one of the ids are published and free, the others stay as they are. */
  ghost predicate IdsMarked(rows: seq<Row>, ids: seq<Uuid>, rows': seq<Row>) {
    |rows'| == |rows| && forall i :: 0 <= i < |rows| ==> rows'[i] == RowMarked(rows[i], ids)
  }

  lemma ClaimedIff(rows: seq<Row>, now: int, limit: int, rows': seq<Row>)
    ensures NextClaimed(rows, now, limit, rows') <==> rows' == Claimed(rows, Batch(rows, now, limit), now)
  {
    var claimed := Claimed(rows, Batch(rows, now, limit), now);
    forall i | 0 <= i < |rows|
      ensures claimed[i] == RowFetched(rows, now, limit, i)
    {
      ClaimedAt(rows, Batch(rows, now, limit), now, i);
      BatchIff(rows, now, limit, i);
    }
    if NextClaimed(rows, now, limit, rows') {
      assert rows' == claimed;
    }
  }

  lemma MarkedIff(rows: seq<Row>, ids: seq<Uuid>, rows': seq<Row>)
    ensures IdsMarked(rows, ids, rows') <==> rows' == Marked(rows, ids)
  {
    forall i | 0 <= i < |rows|
      ensures Marked(rows, ids)[i] == RowMarked(rows[i], ids)
    {
      MarkedAt(rows, ids, i);
    }
    if IdsMarked(rows, ids, rows') {
      assert rows' == Marked(rows, ids);
    }
  }

  lemma BatchSize(rows: seq<Row>, now: int, limit: int)
    ensures var eligible := EligibleBefore(rows, now, |rows|);
            |Batch(rows, now, limit)| == if eligible <= Limit(limit) then eligible else Limit(limit)
  {
    EligibleCount(rows, now, |rows|);
    assert rows[..|rows|] == rows;
  }

  lemma PlaceInBatch(rows: seq<Row>, now: int, limit: int, k: nat)
    requires k < |Batch(rows, now, limit)|
    ensures var i := Batch(rows, now, limit)[k];
            i < |rows| && IsNext(rows, now, limit, i) && EligibleBefore(rows, now, i) == k
  {
    var all, batch := EligibleRows(rows, now), Batch(rows, now, limit);
    EligiblePositions(rows, now);
    var i := batch[k];
    assert i == all[k] && i in all && i in batch;
    BatchIff(rows, now, limit, i);
    EligiblePlace(rows, now, i);
    assert all[EligibleBefore(rows, now, i)] == all[k];
  }

  lemma EventsIff(rows: seq<Row>, now: int, limit: int, events: seq<OutboxEvent>)
    ensures Ascending(Batch(rows, now, limit), |rows|)
    ensures NextEvents(rows, now, limit, events) <==> events == Pick(Events(rows), Batch(rows, now, limit))
  {
    var batch := Batch(rows, now, limit);
    EligiblePositions(rows, now);
    BatchSize(rows, now, limit);
    forall k | 0 <= k < |batch|
      ensures IsNext(rows, now, limit, batch[k]) && EligibleBefore(rows, now, batch[k]) == k
    {
      PlaceInBatch(rows, now, limit, k);
    }
    if NextEvents(rows, now, limit, events) {
      forall k | 0 <= k < |batch|
        ensures events[k] == Pick(Events(rows), batch)[k]
      {
        assert events[EligibleBefore(rows, now, batch[k])] == rows[batch[k]].event;
      }
    }
    if events == Pick(Events(rows), batch) {
      forall i | 0 <= i < |rows| && IsNext(rows, now, limit, i)
        ensures EligibleBefore(rows, now, i) < |events| && events[EligibleBefore(rows, now, i)] == rows[i].event
      {
        EligiblePlace(rows, now, i);
      }
    }
  }

  class Worker {
    const batchSize: int
    var rows: seq<Row>
    var delivered: seq<OutboxEvent>
    var backoff: int

    ghost function View(): State
      reads this
    {
      State(rows, delivered, backoff)
    }

    constructor (batchSize: int, rows: seq<Row>, delivered: seq<OutboxEvent>)
      ensures this.batchSize == batchSize
      ensures View() == State(rows, delivered, FIRST_BACKOFF)
    {
      this.batchSize, this.rows, this.delivered, this.backoff := batchSize, rows, delivered, FIRST_BACKOFF;
    }

    /** One transaction: select, claim, read back in created_at order. A failure may come after the commit. */
    method FetchNextUnpublished(limit: int, now: int, outcome: Fetch) returns (events: Option<seq<OutboxEvent>>)
      modifies this`rows
      ensures if outcome == FetchFailed(false) then rows == old(rows) else NextClaimed(old(rows), now, limit, rows)
      ensures events.Some? <==> outcome.Fetched?
      ensures events.Some? ==> NextEvents(old(rows), now, limit, events.value)
    {
      EligiblePositions(rows, now);
      var batch := Batch(rows, now, limit);
      EventsIff(rows, now, limit, Pick(Events(rows), batch));
      ClaimedIff(rows, now, limit, Claimed(rows, batch, now));
      var claimed := Pick(Events(rows), batch);
      if outcome == FetchFailed(false) {
        return None;
      }
      if batch == [] {
        NothingClaimed(rows, now);
      } else {
        rows := Claimed(rows, batch, now);
      }
      return if outcome.Fetched? then Some(claimed) else None;
    }

    /** Publishes in order up to the first failure and says which events went through. */
    method PublishAll(events: seq<OutboxEvent>, p: Poll) returns (okIds: seq<Uuid>)
      modifies this`delivered
      ensures okIds == IdsOf(First(events, p.accepted))
      ensures delivered == old(delivered) +
                (if p.accepted >= |events| then events else events[..p.accepted + (if p.lost then 1 else 0)])
    {
      okIds := [];
      var i := 0;
      while i < |events|
        invariant 0 <= i <= |events| && i <= p.accepted
        invariant okIds == IdsOf(events[..i])
        invariant delivered == old(delivered) + events[..i]
      {
        if i == p.accepted {
          if p.lost {
            delivered := delivered + [events[i]];
            assert events[..i + 1] == events[..i] + [events[i]];
          }
          break;
        }
        delivered := delivered + [events[i]];
        okIds := okIds + [events[i].id];
        assert events[..i + 1] == events[..i] + [events[i]];
        i := i + 1;
      }
      assert i == |events| ==> events[..i] == events;
    }

    method MarkPublished(ids: seq<Uuid>, succeeds: bool) returns (ok: bool)
      modifies this`rows
      ensures ok <==> ids == [] || succeeds
      ensures if ok then IdsMarked(old(rows), ids, rows) else rows == old(rows)
    {
      MarkedIff(rows, ids, Marked(rows, ids));
      if |ids| == 0 {
        return true;
      }
      if succeeds {
        rows := Marked(rows, ids);
      }
      return succeeds;
    }

    method BackOff()
      modifies this`backoff
      ensures backoff == Doubled(old(backoff))
    {
      if backoff < BACKOFF_LIMIT {
        backoff := backoff * 2;
      }
    }

    /** One turn of the loop is the step AfterPoll. */
    method Turn(p: Poll)
      modifies this
      ensures View() == AfterPoll(old(View()), batchSize, p)
    {
      ghost var before := View();
      ghost var batch := Batch(rows, p.now, batchSize);
      var fetched := FetchNextUnpublished(batchSize, p.now, p.fetch);
      ClaimedIff(before.rows, p.now, batchSize, rows);
      if fetched.None? {
        BackOff();
        return;
      }
      var events := fetched.value;
      EventsIff(before.rows, p.now, batchSize, events);
      if |events| == 0 {
        NothingClaimed(before.rows, p.now);
        backoff := FIRST_BACKOFF;
        return;
      }
      var okIds := PublishAll(events, p);
      PublishedBatch(before, batch, p);
      if |okIds| == 0 {
        BackOff();
        return;
      }
      ghost var claimed := rows;
      var ok := MarkPublished(okIds, p.marked);
      MarkedIff(claimed, okIds, rows);
      if !ok {
        BackOff();
        return;
      }
      backoff := FIRST_BACKOFF;
    }

    /** The loop, until it is told to quit. */
    method Start(polls: seq<Poll>)
      modifies this
      ensures View() == Run(old(View()).(backoff := FIRST_BACKOFF), batchSize, Rounds(polls))
    {
      backoff := FIRST_BACKOFF;
      ghost var before := View();
      var i := 0;
      while i < |polls|
        invariant 0 <= i <= |polls|
        invariant View() == Run(before, batchSize, Rounds(polls[..i]))
      {
        Turn(polls[i]);
        NextRound(before, batchSize, polls, i);
        i := i + 1;
      }
      assert polls[..i] == polls;
    }
  }

  lemma NextRound(s: State, batchSize: int, polls: seq<Poll>, i: nat)
    requires i < |polls|
    ensures Run(s, batchSize, Rounds(polls[..i + 1])) ==
            AfterPoll(Run(s, batchSize, Rounds(polls[..i])), batchSize, polls[i])
  {
    assert Rounds(polls[..i + 1])[..i] == Rounds(polls[..i]);
  }

  lemma PublishedBatch(s: State, batch: seq<nat>, p: Poll)
    requires Ascending(batch, |s.rows|)
    ensures var events := Pick(Events(s.rows), batch);
            && First(events, p.accepted) == Pick(Events(s.rows), AcceptedRows(batch, p))
            && Sent(s.delivered, Events(s.rows), DeliveredRows(batch, p)) == s.delivered +
               (if p.accepted >= |events| then events else events[..p.accepted + (if p.lost then 1 else 0)])
  {
    SentIs(s.delivered, Events(s.rows), DeliveredRows(batch, p));
  }
}
