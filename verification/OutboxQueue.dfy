/** The outbox as a queue: which rows a fetch takes, how many deliveries may repeat, and how it drains. */
module OutboxQueue {
  import opened Arithmetic
  import opened Common
  import opened Entities
  import opened DeliveryOrder
  import opened Outbox
  import opened OutboxTheorems

  // --- The head of the queue -------------------------------------------------------------------------

  ghost predicate AllEligible(rows: seq<Row>, ps: seq<nat>, now: int)
    requires forall k :: 0 <= k < |ps| ==> ps[k] < |rows|
  {
    forall k :: 0 <= k < |ps| ==> Eligible(rows[ps[k]], now)
  }

  lemma {:induction false} EligibleStart(rows: seq<Row>, now: int, n: nat)
    requires n <= |UnpublishedRows(rows)| && Ascending(UnpublishedRows(rows), |rows|)
    requires AllEligible(rows, UnpublishedRows(rows)[..n], now)
    ensures n <= |EligibleRows(rows, now)| <= |UnpublishedRows(rows)|
    ensures EligibleRows(rows, now)[..n] == UnpublishedRows(rows)[..n]
    decreases |rows|
  {
    if rows != [] {
      var last := |rows| - 1;
      var u := UnpublishedRows(rows[..last]);
      UnpublishedPositions(rows[..last]);
      var m := if n <= |u| then n else |u|;
      assert forall k :: 0 <= k < m ==> u[..m][k] == UnpublishedRows(rows)[..n][k];
      EligibleStart(rows[..last], now, m);
      if n > |u| {
        assert UnpublishedRows(rows)[..n][|u|] == last;
        assert EligibleRows(rows[..last], now) == u;
      }
    }
  }

  /** A fetch takes the first n unpublished rows exactly when none of them is under a live claim. */
  lemma BatchIsHeadIff(rows: seq<Row>, now: int, batchSize: int, n: nat)
    requires n <= Limit(batchSize) && n <= |UnpublishedRows(rows)|
    ensures var u, batch := UnpublishedRows(rows), Batch(rows, now, batchSize);
            && Ascending(u, |rows|)
            && (n <= |batch| && batch[..n] == u[..n] <==>
                forall k :: 0 <= k < n ==> !LiveClaim(rows[u[k]], now))
  {
    var u, batch := UnpublishedRows(rows), Batch(rows, now, batchSize);
    UnpublishedPositions(rows);
    if n <= |batch| && batch[..n] == u[..n] {
      forall k | 0 <= k < n
        ensures !LiveClaim(rows[u[k]], now)
      {
        assert u[k] == u[..n][k] == batch[..n][k] == batch[k];
        BatchIsEligible(rows, now, batchSize, u[k]);
      }
    }
    if forall k :: 0 <= k < n ==> !LiveClaim(rows[u[k]], now) {
      forall k | 0 <= k < n
        ensures Eligible(rows[u[..n][k]], now)
      {
        assert u[k] in u;
      }
      EligibleStart(rows, now, n);
      var e := EligibleRows(rows, now);
      assert batch[..n] == e[..n];
    }
  }

  lemma {:induction false} AscendingUnique(xs: seq<nat>, ys: seq<nat>, n: nat)
    requires Ascending(xs, n) && Ascending(ys, n) && forall i: nat :: i in xs <==> i in ys
    ensures xs == ys
    decreases |xs|
  {
    assert ys == [] || ys[0] in xs;
    if xs != [] {
      var a := |xs| - 1;
      assert xs[a] in xs;
      assert |ys| > 0;
      var b := |ys| - 1;
      assert ys[b] in xs;
      assert xs[a] == ys[b];
      forall i: nat
        ensures i in xs[..a] <==> i in ys[..b]
      {
        assert i in xs[..a] <==> i in xs && i != xs[a];
        assert i in ys[..b] <==> i in ys && i != ys[b];
      }
      AscendingUnique(xs[..a], ys[..b], n);
      assert xs == xs[..a] + [xs[a]] && ys == ys[..b] + [ys[b]];
    }
  }

  /** Publishing the first n unpublished rows leaves the others. */
  lemma HeadPublished(rows: seq<Row>, rows': seq<Row>, n: nat)
    requires |rows'| == |rows| && n <= |UnpublishedRows(rows)|
    requires forall i: nat :: i < |rows| ==>
               (rows'[i].published <==> rows[i].published || i in UnpublishedRows(rows)[..n])
    ensures UnpublishedRows(rows') == UnpublishedRows(rows)[n..]
  {
    var u, u' := UnpublishedRows(rows), UnpublishedRows(rows');
    UnpublishedPositions(rows);
    UnpublishedPositions(rows');
    forall i: nat
      ensures i in u' <==> i in u[n..]
    {
      assert u == u[..n] + u[n..];
      assert i in u <==> i < |rows| && !rows[i].published;
    }
    AscendingUnique(u', u[n..], |rows|);
  }

  // --- Deliveries that may repeat -----------------------------------------------------------------------

  /** Rows that were delivered and are still to be marked: those a later round delivers again. */
  function Unmarked(s: State): set<nat> {
    set i: nat | i < |s.rows| && !s.rows[i].published && s.rows[i].event in s.delivered
  }

  ghost predicate PendingInHead(s: State, batchSize: int) {
    forall i: nat :: i in Unmarked(s) ==> i in First(UnpublishedRows(s.rows), Limit(batchSize))
  }

  /** The step serves the queue: a poll that delivers meets no live claim up to the last row it delivers,
      and a new row goes after every delivered one. */
  ghost predicate ServesQueue(s: State, batchSize: int, step: Step) {
    match step
    case Inserted(e) => !Overtakes(s, batchSize, step)
    case Polled(p) =>
      p.fetch.Fetched? ==>
        var n := |DeliveredRows(Batch(s.rows, p.now, batchSize), p)|;
        && Ascending(UnpublishedRows(s.rows), |s.rows|)
        && forall k :: 0 <= k < n && k < |UnpublishedRows(s.rows)| ==> !LiveClaim(s.rows[UnpublishedRows(s.rows)[k]], p.now)
  }

  lemma {:induction false} EligibleAreUnpublished(rows: seq<Row>, now: int)
    ensures |EligibleRows(rows, now)| <= |UnpublishedRows(rows)|
    decreases |rows|
  {
    if rows != [] {
      EligibleAreUnpublished(rows[..|rows| - 1], now);
    }
  }

  lemma ServedRows(s: State, batchSize: int, p: Poll)
    requires ServesQueue(s, batchSize, Polled(p)) && p.fetch.Fetched?
    ensures var ps := DeliveredRows(Batch(s.rows, p.now, batchSize), p);
            |ps| <= Limit(batchSize) && |ps| <= |UnpublishedRows(s.rows)| && ps == UnpublishedRows(s.rows)[..|ps|]
  {
    var batch := Batch(s.rows, p.now, batchSize);
    var n := |DeliveredRows(batch, p)|;
    EligibleAreUnpublished(s.rows, p.now);
    BatchIsHeadIff(s.rows, p.now, batchSize, n);
  }

  lemma MarksAreServed(s: State, batchSize: int, p: Poll)
    requires ServesQueue(s, batchSize, Polled(p))
    ensures var n := |MarkedRows(s, batchSize, p)|;
            n <= |UnpublishedRows(s.rows)| && MarkedRows(s, batchSize, p) == UnpublishedRows(s.rows)[..n]
  {
    if p.fetch.Fetched? {
      ServedRows(s, batchSize, p);
      var batch := Batch(s.rows, p.now, batchSize);
      var n := |AcceptedRows(batch, p)|;
      assert AcceptedRows(batch, p) == DeliveredRows(batch, p)[..n];
    }
  }

  lemma UnpublishedAfterPoll(s: State, batchSize: int, p: Poll)
    requires Inv(s) && ServesQueue(s, batchSize, Polled(p))
    ensures var n := |MarkedRows(s, batchSize, p)|;
            n <= |UnpublishedRows(s.rows)| &&
            UnpublishedRows(AfterPoll(s, batchSize, p).rows) == UnpublishedRows(s.rows)[n..]
  {
    MarksAreServed(s, batchSize, p);
    PollRows(s, batchSize, p);
    forall i: nat | i < |s.rows|
      ensures AfterPoll(s, batchSize, p).rows[i].published <==>
              s.rows[i].published || i in MarkedRows(s, batchSize, p)
    {
      RowAfterPoll(s, batchSize, p, i);
    }
    HeadPublished(s.rows, AfterPoll(s, batchSize, p).rows, |MarkedRows(s, batchSize, p)|);
  }

  /** A turn adds what it delivered to the pending rows and takes away what it marked. */
  lemma PendingAfterPoll(s: State, batchSize: int, p: Poll, i: nat)
    requires Inv(s)
    ensures i in Unmarked(AfterPoll(s, batchSize, p)) <==>
            (i in Unmarked(s) || i in RoundDelivers(s, batchSize, p)) && i !in MarkedRows(s, batchSize, p)
  {
    PollRows(s, batchSize, p);
    DeliveredAfterPoll(s, batchSize, p);
    if i < |s.rows| {
      RowAfterPoll(s, batchSize, p, i);
      DistinctEvents(s.rows);
      PickMembers(Events(s.rows), RoundDelivers(s, batchSize, p), i);
      if i in RoundDelivers(s, batchSize, p) {
        DeliversUnpublished(s, batchSize, p, i);
      }
    }
  }

  lemma DeliversUnpublished(s: State, batchSize: int, p: Poll, i: nat)
    requires i in RoundDelivers(s, batchSize, p)
    ensures i < |s.rows| && !s.rows[i].published
  {
    BatchIsEligible(s.rows, p.now, batchSize, i);
  }

  /** The next fetch takes every pending row again exactly when none of them is under a live claim. */
  lemma RetriedIff(s: State, batchSize: int, now: int)
    requires PendingInHead(s, batchSize)
    ensures (forall i: nat :: i in Unmarked(s) ==> i in Batch(s.rows, now, batchSize)) <==>
            (forall i: nat :: i in Unmarked(s) ==> !LiveClaim(s.rows[i], now))
  {
    forall i: nat | i in Unmarked(s)
      ensures i in Batch(s.rows, now, batchSize) <==> !LiveClaim(s.rows[i], now)
    {
      if i in Batch(s.rows, now, batchSize) {
        BatchIsEligible(s.rows, now, batchSize, i);
      } else {
        HeadIsFetched(s.rows, now, batchSize, i);
      }
    }
  }

  lemma InFirst(xs: seq<nat>, limit: nat, x: nat)
    ensures x in First(xs, limit) <==> exists k :: 0 <= k < |xs| && k < limit && xs[k] == x
  {
    if x in First(xs, limit) {
      var k :| 0 <= k < |First(xs, limit)| && First(xs, limit)[k] == x;
      assert xs[k] == x;
    }
    if k :| 0 <= k < |xs| && k < limit && xs[k] == x {
      assert First(xs, limit)[k] == x;
    }
  }

  lemma EligibleRank(rows: seq<Row>, now: int, k: nat) returns (l: nat)
    requires k < |UnpublishedRows(rows)| && UnpublishedRows(rows)[k] < |rows|
    requires Eligible(rows[UnpublishedRows(rows)[k]], now)
    ensures l <= k && l < |EligibleRows(rows, now)| && EligibleRows(rows, now)[l] == UnpublishedRows(rows)[k]
  {
    var u, e := UnpublishedRows(rows), EligibleRows(rows, now);
    UnpublishedPositions(rows);
    EligiblePositions(rows, now);
    forall a | 0 <= a < |e|
      ensures e[a] in u
    {
      assert e[a] in e;
    }
    assert u[k] in u && u[k] in e;
    l :| 0 <= l < |e| && e[l] == u[k];
    RankInSubsequence(e, u, l, k);
  }

  /** A row among the first unpublished ones is fetched if it is eligible. */
  lemma HeadIsFetched(rows: seq<Row>, now: int, batchSize: int, i: nat)
    requires i in First(UnpublishedRows(rows), Limit(batchSize)) && i < |rows|
    ensures Eligible(rows[i], now) ==> i in Batch(rows, now, batchSize)
  {
    InFirst(UnpublishedRows(rows), Limit(batchSize), i);
    InFirst(EligibleRows(rows, now), Limit(batchSize), i);
    if Eligible(rows[i], now) {
      var u := UnpublishedRows(rows);
      var k :| 0 <= k < |u| && k < Limit(batchSize) && u[k] == i;
      var l := EligibleRank(rows, now, k);
    }
  }

  /** In a subsequence of an ascending sequence an element does not come later. */
  lemma {:induction false} RankInSubsequence(xs: seq<nat>, ys: seq<nat>, l: nat, k: nat)
    requires l < |xs| && k < |ys| && xs[l] == ys[k]
    requires (forall a, b :: 0 <= a < b < |xs| ==> xs[a] < xs[b]) && (forall a, b :: 0 <= a < b < |ys| ==> ys[a] < ys[b])
    requires forall a :: 0 <= a < |xs| ==> xs[a] in ys
    ensures l <= k
    decreases l
  {
    if l > 0 {
      assert xs[l - 1] in ys;
      var j :| 0 <= j < |ys| && ys[j] == xs[l - 1];
      RankInSubsequence(xs, ys, l - 1, j);
    }
  }

  lemma HeadRest(u: seq<nat>, n: nat, limit: nat, i: nat)
    requires n <= |u| && i in First(u, limit) && i in u[n..] && forall k, l :: 0 <= k < l < |u| ==> u[k] != u[l]
    ensures i in First(u[n..], limit)
  {
    var k :| 0 <= k < |First(u, limit)| && First(u, limit)[k] == i;
    var l :| 0 <= l < |u[n..]| && u[n..][l] == i;
    assert u[k] == u[n + l];
    assert k == n + l;
    assert First(u[n..], limit)[l] == i;
  }

  lemma PollKeepsHead(s: State, batchSize: int, p: Poll)
    requires Inv(s) && PendingInHead(s, batchSize) && ServesQueue(s, batchSize, Polled(p))
    ensures PendingInHead(AfterPoll(s, batchSize, p), batchSize)
  {
    var s' := AfterPoll(s, batchSize, p);
    var u := UnpublishedRows(s.rows);
    UnpublishedAfterPoll(s, batchSize, p);
    UnpublishedPositions(s.rows);
    var n := |MarkedRows(s, batchSize, p)|;
    if p.fetch.Fetched? {
      ServedRows(s, batchSize, p);
    }
    forall i: nat | i in Unmarked(s')
      ensures i in First(UnpublishedRows(s'.rows), Limit(batchSize))
    {
      PendingAfterPoll(s, batchSize, p, i);
      UnpublishedPositions(s'.rows);
      HeadRest(u, n, Limit(batchSize), i);
    }
  }

  lemma {:induction false} UnpublishedFrom(rows: seq<Row>, rest: seq<Row>)
    ensures UnpublishedRows(rows) <= UnpublishedRows(rows + rest)
    decreases |rest|
  {
    if rest == [] {
      assert rows + rest == rows;
    } else {
      var n := |rest| - 1;
      UnpublishedFrom(rows, rest[..n]);
      assert (rows + rest)[..|rows + rest| - 1] == rows + rest[..n];
    }
  }

  lemma FirstIn(rows: seq<Row>, rest: seq<Row>, limit: nat, i: nat)
    requires i < |rows|
    ensures i in First(UnpublishedRows(rows + rest), limit) <==> i in First(UnpublishedRows(rows), limit)
  {
    UnpublishedFrom(rows, rest);
    UnpublishedPositions(rows);
    UnpublishedPositions(rows + rest);
    var v, u := UnpublishedRows(rows), UnpublishedRows(rows + rest);
    if i in First(u, limit) {
      var k :| 0 <= k < |First(u, limit)| && First(u, limit)[k] == i;
      assert u[k] in u;
      assert (rows + rest)[i] == rows[i];
      assert i in v;
      var l :| 0 <= l < |v| && v[l] == i;
      assert u[l] == i;
      assert First(v, limit)[k] == i;
    }
    if i in First(v, limit) {
      var k :| 0 <= k < |First(v, limit)| && First(v, limit)[k] == i;
      assert First(u, limit)[k] == i;
    }
  }

  lemma PendingAfterInsert(s: State, e: OutboxEvent, i: nat)
    requires Inv(s) && Enabled(s, Inserted(e)) && i in Unmarked(AfterInsert(s, e))
    requires forall j :: Place(s.rows, e.createdAt) <= j < |s.rows| ==> s.rows[j].event !in s.delivered
    ensures i in Unmarked(s) && i < Place(s.rows, e.createdAt)
  {
    NewIsUndelivered(s, e);
    RowsAfterInsert(s, e, i);
  }

  lemma RowsAfterInsert(s: State, e: OutboxEvent, i: nat)
    requires i <= |s.rows|
    ensures var p, rows := Place(s.rows, e.createdAt), AfterInsert(s, e).rows;
            && |rows| == |s.rows| + 1 && rows[p] == Row(e, false, None)
            && (i < p ==> rows[i] == s.rows[i])
            && (i > p ==> rows[i] == s.rows[i - 1])
  {
  }

  lemma InsertKeepsHead(s: State, batchSize: int, e: OutboxEvent)
    requires Inv(s) && Enabled(s, Inserted(e)) && PendingInHead(s, batchSize)
    requires ServesQueue(s, batchSize, Inserted(e))
    ensures PendingInHead(AfterInsert(s, e), batchSize)
  {
    var p := Place(s.rows, e.createdAt);
    var s' := AfterInsert(s, e);
    var rest := [Row(e, false, None)] + s.rows[p..];
    assert s.rows == s.rows[..p] + s.rows[p..];
    assert s'.rows == s.rows[..p] + rest;
    forall i: nat | i in Unmarked(s')
      ensures i in First(UnpublishedRows(s'.rows), Limit(batchSize))
    {
      PendingAfterInsert(s, e, i);
      FirstIn(s.rows[..p], s.rows[p..], Limit(batchSize), i);
      FirstIn(s.rows[..p], rest, Limit(batchSize), i);
    }
  }

  /** Every step of the run serves the queue. */
  ghost predicate QueueServed(batchSize: int, steps: seq<Step>) {
    steps != [] ==>
      var n := |steps| - 1;
      QueueServed(batchSize, steps[..n]) && ServesQueue(Run(EMPTY, batchSize, steps[..n]), batchSize, steps[n])
  }

  lemma StepKeepsHead(s: State, batchSize: int, step: Step)
    requires Inv(s) && PendingInHead(s, batchSize) && ServesQueue(s, batchSize, step)
    ensures PendingInHead(Apply(s, batchSize, step), batchSize)
  {
    if Enabled(s, step) {
      match step
      case Inserted(e) => InsertKeepsHead(s, batchSize, e);
      case Polled(p) => PollKeepsHead(s, batchSize, p);
    }
  }

  lemma {:induction false} ServedRunKeepsHead(batchSize: int, steps: seq<Step>)
    requires QueueServed(batchSize, steps)
    ensures PendingInHead(Run(EMPTY, batchSize, steps), batchSize)
    decreases |steps|
  {
    if steps != [] {
      var n := |steps| - 1;
      ServedRunKeepsHead(batchSize, steps[..n]);
      RunKeepsInv(EMPTY, batchSize, steps[..n]);
      StepKeepsHead(Run(EMPTY, batchSize, steps[..n]), batchSize, steps[n]);
    }
  }

  lemma {:induction false} FewerElements(ps: set<nat>, xs: seq<nat>)
    requires forall i: nat :: i in ps ==> i in xs
    ensures |ps| <= |xs|
    decreases |xs|
  {
    if xs == [] {
      assert ps == {};
    } else {
      var n := |xs| - 1;
      FewerElements(ps - {xs[n]}, xs[..n]);
    }
  }

  /** While every round serves the head of the queue, at most a batch of deliveries awaits its mark. */
  lemma BoundedDuplication(batchSize: int, steps: seq<Step>)
    requires QueueServed(batchSize, steps)
    ensures |Unmarked(Run(EMPTY, batchSize, steps))| <= Limit(batchSize)
  {
    var s := Run(EMPTY, batchSize, steps);
    ServedRunKeepsHead(batchSize, steps);
    FewerElements(Unmarked(s), First(UnpublishedRows(s.rows), Limit(batchSize)));
  }

  /** Claims that outlive a failed mark break that bound: with batches of one, two marks that fail within two
      minutes leave two deliveries unmarked. */
  lemma FailedMarksPileUp(a: OutboxEvent, b: OutboxEvent, t: int, t': int)
    requires a.id != b.id && a.createdAt <= b.createdAt && t <= t' <= t + 120000
    ensures var steps := [Inserted(a), Inserted(b), Polled(Poll(t, Fetched, 1, false, false)),
                          Polled(Poll(t', Fetched, 1, false, false))];
            Unmarked(Run(EMPTY, 1, steps)) == {0, 1} && Limit(1) == 1
  {
    RunFour(EMPTY, 1, Inserted(a), Inserted(b),
            Polled(Poll(t, Fetched, 1, false, false)), Polled(Poll(t', Fetched, 1, false, false)));
    FourStepsPileUp(a, b, t, t');
  }

  lemma FourStepsPileUp(a: OutboxEvent, b: OutboxEvent, t: int, t': int)
    requires a.id != b.id && a.createdAt <= b.createdAt && t <= t' <= t + 120000
    ensures var first, second := Polled(Poll(t, Fetched, 1, false, false)), Polled(Poll(t', Fetched, 1, false, false));
            Unmarked(Apply(Apply(Apply(Apply(EMPTY, 1, Inserted(a)), 1, Inserted(b)), 1, first), 1, second)) == {0, 1}
  {
    InsertTwo(a, b);
    FirstMarkFails(a, b, t);
    SecondMarkFails(a, b, t, t');
  }

  lemma FirstMarkFails(a: OutboxEvent, b: OutboxEvent, t: int)
    ensures Apply(State([Row(a, false, None), Row(b, false, None)], [], FIRST_BACKOFF), 1,
                  Polled(Poll(t, Fetched, 1, false, false))) ==
            State([Row(a, false, Some(t)), Row(b, false, None)], [a], 400)
  {
    var rows := [Row(a, false, None), Row(b, false, None)];
    TwoRows(rows, t);
    assert Batch(rows, t, 1) == [0];
    SendsOne([], rows, 0);
    ClaimsOne(rows, 0, t);
  }

  lemma SecondMarkFails(a: OutboxEvent, b: OutboxEvent, t: int, t': int)
    requires a.id != b.id && t <= t' <= t + 120000
    ensures Unmarked(Apply(State([Row(a, false, Some(t)), Row(b, false, None)], [a], 400), 1,
                          Polled(Poll(t', Fetched, 1, false, false)))) == {0, 1}
  {
    var rows := [Row(a, false, Some(t)), Row(b, false, None)];
    TwoRows(rows, t');
    assert Batch(rows, t', 1) == [1];
    SendsOne([a], rows, 1);
    ClaimsOne(rows, 1, t');
  }

  // --- Draining -------------------------------------------------------------------------------------------

  ghost predicate NoLiveClaim(rows: seq<Row>, now: int) {
    forall i :: 0 <= i < |rows| ==> !LiveClaim(rows[i], now)
  }

  predicate Clean(p: Poll, batchSize: int) {
    p.fetch.Fetched? && p.accepted >= Limit(batchSize) && p.marked
  }

  function Least(a: nat, b: nat): nat {
    if a <= b then a else b
  }

  lemma ClaimsExpire(rows: seq<Row>, now: int, later: int)
    requires NoLiveClaim(rows, now) && now <= later
    ensures NoLiveClaim(rows, later)
  {
  }

  lemma FreeBatch(rows: seq<Row>, now: int, batchSize: int)
    requires NoLiveClaim(rows, now)
    ensures Batch(rows, now, batchSize) == First(UnpublishedRows(rows), Limit(batchSize))
  {
    var u := UnpublishedRows(rows);
    UnpublishedPositions(rows);
    var n := Least(|u|, Limit(batchSize));
    BatchIsHeadIff(rows, now, batchSize, n);
    EligibleAreUnpublished(rows, now);
    assert |Batch(rows, now, batchSize)| == n;
    WholePrefix(Batch(rows, now, batchSize), u, n);
  }

  lemma WholePrefix(xs: seq<nat>, ys: seq<nat>, n: nat)
    requires |xs| == n <= |ys| && xs[..n] == ys[..n]
    ensures xs == ys[..n]
  {
  }

  lemma CleanPoll(s: State, batchSize: int, p: Poll)
    requires Inv(s) && NoLiveClaim(s.rows, p.now) && Clean(p, batchSize)
    ensures var u, s' := UnpublishedRows(s.rows), AfterPoll(s, batchSize, p);
            var n := Least(|u|, Limit(batchSize));
            && Ascending(u, |s.rows|)
            && UnpublishedRows(s'.rows) == u[n..]
            && s'.delivered == s.delivered + Pick(Events(s.rows), u[..n])
            && s'.backoff == FIRST_BACKOFF
    ensures NoLiveClaim(AfterPoll(s, batchSize, p).rows, p.now)
  {
    var u, s' := UnpublishedRows(s.rows), AfterPoll(s, batchSize, p);
    var batch := Batch(s.rows, p.now, batchSize);
    var n := Least(|u|, Limit(batchSize));
    UnpublishedPositions(s.rows);
    FreeBatch(s.rows, p.now, batchSize);
    assert batch == u[..n];
    assert DeliveredRows(batch, p) == batch && AcceptedRows(batch, p) == batch;
    DeliveredAfterPoll(s, batchSize, p);
    if batch == [] {
      assert Pick(Events(s.rows), u[..n]) == [];
    } else {
      PollEvents(s, batchSize, p);
      forall i: nat | i < |s.rows|
        ensures s'.rows[i] == if i in batch then Row(s.rows[i].event, true, None) else s.rows[i]
      {
        RowAfterPoll(s, batchSize, p, i);
      }
      HeadPublished(s.rows, s'.rows, n);
    }
  }

  /** The clock after the steps: start, or the time of the last poll. */
  function Clock(steps: seq<Step>, start: int): int {
    if steps == [] || steps[|steps| - 1].Inserted? then start else steps[|steps| - 1].poll.now
  }

  /** Clean rounds only, from start on, each no earlier than the one before. */
  predicate CleanRounds(steps: seq<Step>, batchSize: int, start: int) {
    steps == [] ||
    var n := |steps| - 1;
    && steps[n].Polled? && Clean(steps[n].poll, batchSize)
    && Clock(steps[..n], start) <= steps[n].poll.now
    && CleanRounds(steps[..n], batchSize, start)
  }

  /** The outbox as a plain queue: what waits, and what was sent. */
  datatype Queue = Queue(waiting: seq<OutboxEvent>, sent: seq<OutboxEvent>)

  function Waiting(rows: seq<Row>): seq<OutboxEvent> {
    if rows == [] then []
    else
      var n := |rows| - 1;
      var earlier := Waiting(rows[..n]);
      if rows[n].published then earlier else earlier + [rows[n].event]
  }

  function AsQueue(s: State): Queue {
    Queue(Waiting(s.rows), s.delivered)
  }

  /** Sends up to n events, one at a time. */
  function Serve(q: Queue, n: nat): Queue
    decreases n
  {
    if n == 0 || q.waiting == [] then q else Serve(Queue(q.waiting[1..], q.sent + [q.waiting[0]]), n - 1)
  }

  lemma {:induction false} ServeIs(q: Queue, n: nat)
    ensures var m := Least(|q.waiting|, n);
            Serve(q, n) == Queue(q.waiting[m..], q.sent + q.waiting[..m])
    decreases n
  {
    var m := Least(|q.waiting|, n);
    if n == 0 || q.waiting == [] {
      assert q.sent + q.waiting[..m] == q.sent;
    } else {
      ServeIs(Queue(q.waiting[1..], q.sent + [q.waiting[0]]), n - 1);
      assert q.waiting[1..][m - 1..] == q.waiting[m..];
      assert [q.waiting[0]] + q.waiting[1..][..m - 1] == q.waiting[..m];
    }
  }

  lemma {:induction false} ServeTwice(q: Queue, a: nat, b: nat)
    ensures Serve(Serve(q, a), b) == Serve(q, a + b)
    decreases a
  {
    if a > 0 && q.waiting != [] {
      ServeTwice(Queue(q.waiting[1..], q.sent + [q.waiting[0]]), a - 1, b);
    }
  }

  lemma {:induction false} WaitingIs(rows: seq<Row>)
    ensures Ascending(UnpublishedRows(rows), |rows|)
    ensures Waiting(rows) == Pick(Events(rows), UnpublishedRows(rows))
    decreases |rows|
  {
    UnpublishedPositions(rows);
    if rows != [] {
      var before := rows[..|rows| - 1];
      WaitingIs(before);
      assert Pick(Events(rows), UnpublishedRows(before)) == Pick(Events(before), UnpublishedRows(before));
      if !rows[|rows| - 1].published {
        PickLast(Events(rows), UnpublishedRows(before), |rows| - 1);
      }
    }
  }

  lemma PickLast(es: seq<OutboxEvent>, ps: seq<nat>, i: nat)
    requires (forall k :: 0 <= k < |ps| ==> ps[k] < |es|) && i < |es|
    ensures Pick(es, ps + [i]) == Pick(es, ps) + [es[i]]
  {
  }

  lemma PickParts(es: seq<OutboxEvent>, u: seq<nat>, n: nat)
    requires Ascending(u, |es|) && n <= |u|
    ensures Pick(es, u)[n..] == Pick(es, u[n..])
    ensures Pick(es, u)[..n] == Pick(es, u[..n])
  {
  }

  /** A clean round with no claim in its way is one batch of the plain queue. */
  lemma CleanPollServes(s: State, batchSize: int, p: Poll)
    requires Inv(s) && NoLiveClaim(s.rows, p.now) && Clean(p, batchSize)
    ensures AsQueue(AfterPoll(s, batchSize, p)) == Serve(AsQueue(s), Limit(batchSize))
    ensures NoLiveClaim(AfterPoll(s, batchSize, p).rows, p.now)
    ensures AfterPoll(s, batchSize, p).backoff == FIRST_BACKOFF
  {
    var u := UnpublishedRows(s.rows);
    CleanPoll(s, batchSize, p);
    PollRows(s, batchSize, p);
    WaitingIs(s.rows);
    WaitingIs(AfterPoll(s, batchSize, p).rows);
    PickParts(Events(s.rows), u, Least(|u|, Limit(batchSize)));
    ServeIs(AsQueue(s), Limit(batchSize));
  }

  function Capacity(batchSize: int, rounds: nat): nat {
    if rounds == 0 then 0 else Capacity(batchSize, rounds - 1) + Limit(batchSize)
  }

  lemma {:induction false} CapacityIs(batchSize: int, rounds: nat)
    ensures Capacity(batchSize, rounds) == rounds * Limit(batchSize)
  {
    if rounds > 0 {
      CapacityIs(batchSize, rounds - 1);
      assert rounds * Limit(batchSize) == (rounds - 1) * Limit(batchSize) + Limit(batchSize);
    }
  }

  /** What holds before the first clean round and is kept by each holds after the last. */
  lemma {:induction false} CleanInduction(P: (State, nat, int) -> bool, s: State, batchSize: int, steps: seq<Step>,
                                          start: int)
    requires P(s, 0, start) && CleanRounds(steps, batchSize, start)
    requires forall mid: State, n: nat, now: int, p: Poll ::
               P(mid, n, now) && Clean(p, batchSize) && now <= p.now ==> P(AfterPoll(mid, batchSize, p), n + 1, p.now)
    ensures P(Run(s, batchSize, steps), |steps|, Clock(steps, start))
    decreases |steps|
  {
    if steps != [] {
      CleanInduction(P, s, batchSize, steps[..|steps| - 1], start);
    }
  }

  /** After n clean rounds, the last at time now, n batches of the queue of s were sent. */
  ghost predicate Drained(s: State, batchSize: int, mid: State, n: nat, now: int) {
    && Inv(mid) && NoLiveClaim(mid.rows, now) && Events(mid.rows) == Events(s.rows)
    && AsQueue(mid) == Serve(AsQueue(s), Capacity(batchSize, n))
    && (n > 0 ==> mid.backoff == FIRST_BACKOFF)
  }

  lemma NextRoundDrains(s: State, batchSize: int, mid: State, n: nat, now: int, p: Poll)
    requires Drained(s, batchSize, mid, n, now) && Clean(p, batchSize) && now <= p.now
    ensures Drained(s, batchSize, AfterPoll(mid, batchSize, p), n + 1, p.now)
  {
    ClaimsExpire(mid.rows, now, p.now);
    NextBatchServes(AsQueue(s), batchSize, mid, n, p);
    PollKeepsInv(mid, batchSize, p);
    PollRows(mid, batchSize, p);
  }

  lemma NextBatchServes(q: Queue, batchSize: int, mid: State, n: nat, p: Poll)
    requires AsQueue(mid) == Serve(q, Capacity(batchSize, n))
    requires Inv(mid) && NoLiveClaim(mid.rows, p.now) && Clean(p, batchSize)
    ensures AsQueue(AfterPoll(mid, batchSize, p)) == Serve(q, Capacity(batchSize, n + 1))
    ensures NoLiveClaim(AfterPoll(mid, batchSize, p).rows, p.now)
    ensures AfterPoll(mid, batchSize, p).backoff == FIRST_BACKOFF
  {
    CleanPollServes(mid, batchSize, p);
    ServeTwice(q, Capacity(batchSize, n), Limit(batchSize));
  }

  lemma RunDrains(s: State, batchSize: int, steps: seq<Step>, start: int)
    requires Inv(s) && NoLiveClaim(s.rows, start) && CleanRounds(steps, batchSize, start)
    ensures Drained(s, batchSize, Run(s, batchSize, steps), |steps|, Clock(steps, start))
  {
    forall mid: State, n: nat, now: int, p: Poll |
      Drained(s, batchSize, mid, n, now) && Clean(p, batchSize) && now <= p.now
      ensures Drained(s, batchSize, AfterPoll(mid, batchSize, p), n + 1, p.now)
    {
      NextRoundDrains(s, batchSize, mid, n, now, p);
    }
    CleanInduction((mid, n: nat, now) => Drained(s, batchSize, mid, n, now), s, batchSize, steps, start);
  }

  /** Once failures and new events stop and claims are over, k rounds are a plain queue that sends k batches:
      in order, each event once. */
  lemma Drain(s: State, batchSize: int, steps: seq<Step>, start: int)
    requires Inv(s) && NoLiveClaim(s.rows, start) && CleanRounds(steps, batchSize, start)
    ensures 0 <= |steps| * Limit(batchSize)
    ensures AsQueue(Run(s, batchSize, steps)) == Serve(AsQueue(s), |steps| * Limit(batchSize))
    ensures steps != [] ==> Run(s, batchSize, steps).backoff == 200
  {
    CapacityIs(batchSize, |steps|);
    RunDrains(s, batchSize, steps, start);
  }

  /** The table is drained once the rounds have room for all that waited, and no sooner. */
  lemma DrainedIff(s: State, batchSize: int, steps: seq<Step>, start: int)
    requires Inv(s) && NoLiveClaim(s.rows, start) && CleanRounds(steps, batchSize, start)
    ensures Waiting(Run(s, batchSize, steps).rows) == [] <==> |steps| * Limit(batchSize) >= |Waiting(s.rows)|
  {
    Drain(s, batchSize, steps, start);
    ServeIs(AsQueue(s), |steps| * Limit(batchSize));
  }

  ghost predicate ClaimsUntil(rows: seq<Row>, t: int) {
    forall i :: 0 <= i < |rows| && rows[i].claimedAt.Some? ==> rows[i].claimedAt.value <= t
  }

  /** Two minutes after the last claim nothing is in the way, whatever failed before. */
  lemma ClaimsEndAfterTwoMinutes(s: State, t: int)
    requires ClaimsUntil(s.rows, t)
    ensures NoLiveClaim(s.rows, t + 120001)
  {
  }

  // --- Backoff ----------------------------------------------------------------------------------------------

  /** The backoff is back at 200 ms exactly after a round that marked what it published, or found nothing. */
  lemma BackoffResetsIff(s: State, batchSize: int, p: Poll)
    requires Inv(s)
    ensures var batch := Batch(s.rows, p.now, batchSize);
            AfterPoll(s, batchSize, p).backoff == 200 <==>
            p.fetch.Fetched? && (batch == [] || (AcceptedRows(batch, p) != [] && p.marked))
  {
  }

  /** The fetch fails, or of a batch nothing is accepted or the mark fails. */
  predicate TurnFails(s: State, batchSize: int, p: Poll) {
    p.fetch.FetchFailed? || (Batch(s.rows, p.now, batchSize) != [] && (p.accepted == 0 || !p.marked))
  }

  /** How many turns failed since the last one that did not. */
  function FailuresInARow(batchSize: int, steps: seq<Step>): nat {
    if steps == [] then 0
    else
      var n := |steps| - 1;
      match steps[n]
      case Inserted(_) => FailuresInARow(batchSize, steps[..n])
      case Polled(p) =>
        if TurnFails(Run(EMPTY, batchSize, steps[..n]), batchSize, p) then FailuresInARow(batchSize, steps[..n]) + 1 else 0
  }

  /** 200 ms, 400, 800, 1600, and from the fourth failure on 3200. */
  function BackoffAfter(failures: nat): int {
    if failures == 0 then 200 else if failures == 1 then 400 else if failures == 2 then 800
    else if failures == 3 then 1600 else 3200
  }

  lemma TurnBacksOff(s: State, batchSize: int, p: Poll, failures: nat)
    requires s.backoff == BackoffAfter(failures)
    ensures AfterPoll(s, batchSize, p).backoff == BackoffAfter(if TurnFails(s, batchSize, p) then failures + 1 else 0)
  {
  }

  /** Over every run the backoff is 200 ms doubled for each failure in a row, at most four times. */
  lemma {:induction false} BackoffCountsFailures(batchSize: int, steps: seq<Step>)
    ensures Run(EMPTY, batchSize, steps).backoff == BackoffAfter(FailuresInARow(batchSize, steps))
    decreases |steps|
  {
    if steps != [] {
      var n := |steps| - 1;
      BackoffCountsFailures(batchSize, steps[..n]);
      if steps[n].Polled? {
        TurnBacksOff(Run(EMPTY, batchSize, steps[..n]), batchSize, steps[n].poll, FailuresInARow(batchSize, steps[..n]));
      }
    }
  }

  lemma {:induction false} BackoffAfterIs(failures: nat)
    ensures BackoffAfter(failures) == 200 * Pow2(if failures <= 4 then failures else 4)
  {
    assert Pow2(2) == 4 && Pow2(3) == 8 && Pow2(4) == 16;
  }
}
