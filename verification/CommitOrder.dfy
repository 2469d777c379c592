/** The outbox in commit order, which is not the created_at order it is read in: a commit's time is drawn before its
    transaction. */
module CommitOrder {
  import opened Common
  import opened Entities
  import opened EndToEnd
  import L = LedgerSteps
  import Invariant = LedgerInvariant
  import Facts = LedgerTheorems
  import D = DeliveryOrder
  import O = Outbox
  import Order = OutboxTheorems
  import Marks = OutboxMarks

  // --- The table and the history -------------------------------------------------------------------------

  /** The times that were drawn follow the commits. */
  predicate ClockFollowsCommits(log: seq<Commit>) {
    forall i, j :: 0 <= i < j < |log| ==> log[i].at <= log[j].at
  }

  lemma InsertKeepsCreation(s: O.State, e: OutboxEvent)
    requires O.ByCreation(s.rows)
    ensures O.ByCreation(O.AfterInsert(s, e).rows)
  {
    O.PlaceIsBetween(s.rows, e.createdAt);
  }

  lemma {:induction false} PlayByCreation(sys: System, batchSize: int, moves: seq<Move>)
    requires Initial(sys)
    ensures O.ByCreation(Play(sys, batchSize, moves).outbox.rows)
    decreases |moves|
  {
    if moves != [] {
      var n := |moves| - 1;
      var before := Play(sys, batchSize, moves[..n]);
      PlayByCreation(sys, batchSize, moves[..n]);
      match moves[n]
      case LedgerMove(s) =>
        if Facts.Commits(before.ledger, s) {
          InsertKeepsCreation(before.outbox, EventOf(L.Attempt(before.ledger.runs[s.run], s.journalId, s.eventId)));
        }
      case WorkerMove(p) => PollKeepsCreation(sys, batchSize, moves[..n], p);
    }
  }

  lemma PollKeepsCreation(sys: System, batchSize: int, moves: seq<Move>, p: O.Poll)
    requires Initial(sys) && O.ByCreation(Play(sys, batchSize, moves).outbox.rows)
    ensures O.ByCreation(O.AfterPoll(Play(sys, batchSize, moves).outbox, batchSize, p).rows)
  {
    var s := Play(sys, batchSize, moves).outbox;
    PlayKeepsInv(sys, batchSize, moves);
    O.PollRows(s, batchSize, p);
    O.SameEventsSameOrder(s.rows, O.AfterPoll(s, batchSize, p).rows);
  }

  /** What a move adds to the history. */
  lemma MoveLog(sys: System, batchSize: int, m: Move)
    ensures AfterMove(sys, batchSize, m).ledger.log ==
            if m.LedgerMove? && Facts.Commits(sys.ledger, m.step)
            then sys.ledger.log + [L.Attempt(sys.ledger.runs[m.step.run], m.step.journalId, m.step.eventId)]
            else sys.ledger.log
  {
    if m.LedgerMove? {
      Facts.OnlyWritesCommit(sys.ledger, m.step);
    }
  }

  lemma LatestGoesLast(w: seq<Commit>, s: O.State, c: Commit)
    requires O.Events(s.rows) == Invariant.EventsOf(w) && ClockFollowsCommits(w + [c])
    ensures O.Events(O.AfterInsert(s, EventOf(c)).rows) == Invariant.EventsOf(w + [c])
  {
    var e, n := EventOf(c), |s.rows|;
    assert |O.Events(s.rows)| == |w|;
    if n > 0 {
      assert s.rows[n - 1].event == O.Events(s.rows)[n - 1] == EventOf(w[n - 1]);
      assert (w + [c])[n - 1].at <= (w + [c])[n].at;
    }
    assert O.Place(s.rows, e.createdAt) == n;
    O.EventsAfterInsert(s.rows, n, O.Row(e, false, None));
  }

  lemma {:induction false} AscendingIsCommitOrder(sys: System, batchSize: int, moves: seq<Move>)
    requires Initial(sys) && ClockFollowsCommits(Play(sys, batchSize, moves).ledger.log)
    ensures var end := Play(sys, batchSize, moves);
            O.Events(end.outbox.rows) == Invariant.EventsOf(end.ledger.log)
    decreases |moves|
  {
    if moves != [] {
      var n := |moves| - 1;
      var before := Play(sys, batchSize, moves[..n]);
      MoveLog(before, batchSize, moves[n]);
      ClockOfPrefix(before.ledger.log, Play(sys, batchSize, moves).ledger.log);
      AscendingIsCommitOrder(sys, batchSize, moves[..n]);
      match moves[n]
      case LedgerMove(s) =>
        if Facts.Commits(before.ledger, s) {
          LatestGoesLast(before.ledger.log, before.outbox, L.Attempt(before.ledger.runs[s.run], s.journalId, s.eventId));
        }
      case WorkerMove(p) =>
        PlayKeepsInv(sys, batchSize, moves[..n]);
        O.PollRows(before.outbox, batchSize, p);
    }
  }

  lemma ClockOfPrefix(log: seq<Commit>, log': seq<Commit>)
    requires log <= log' && ClockFollowsCommits(log')
    ensures ClockFollowsCommits(log)
  {
    assert forall i :: 0 <= i < |log| ==> log[i] == log'[i];
  }

  lemma CommitOrderIsAscending(rows: seq<O.Row>, log: seq<Commit>)
    requires O.ByCreation(rows) && O.Events(rows) == Invariant.EventsOf(log)
    ensures ClockFollowsCommits(log)
  {
    assert |O.Events(rows)| == |log|;
    forall i | 0 <= i < |log|
      ensures rows[i].event.createdAt == log[i].at
    {
      assert O.Events(rows)[i] == EventOf(log[i]);
    }
  }

  /** The table the worker reads is in commit order exactly when the times drawn follow the commits. */
  lemma TableIsCommitOrderIff(sys: System, batchSize: int, moves: seq<Move>)
    requires Initial(sys)
    ensures var end := Play(sys, batchSize, moves);
            O.Events(end.outbox.rows) == Invariant.EventsOf(end.ledger.log) <==> ClockFollowsCommits(end.ledger.log)
  {
    var end := Play(sys, batchSize, moves);
    if ClockFollowsCommits(end.ledger.log) {
      AscendingIsCommitOrder(sys, batchSize, moves);
    }
    if O.Events(end.outbox.rows) == Invariant.EventsOf(end.ledger.log) {
      PlayByCreation(sys, batchSize, moves);
      CommitOrderIsAscending(end.outbox.rows, end.ledger.log);
    }
  }

  // --- The outbox of a play is a run of the outbox ---------------------------------------------------------

  function OutboxSteps(sys: System, batchSize: int, moves: seq<Move>): seq<O.Step> {
    if moves == [] then []
    else
      var n := |moves| - 1;
      var earlier, w := OutboxSteps(sys, batchSize, moves[..n]), Play(sys, batchSize, moves[..n]).ledger;
      match moves[n]
      case WorkerMove(p) => earlier + [O.Polled(p)]
      case LedgerMove(s) =>
        if Facts.Commits(w, s) then earlier + [O.Inserted(EventOf(L.Attempt(w.runs[s.run], s.journalId, s.eventId)))]
        else earlier
  }

  lemma OneMore(s: O.State, batchSize: int, steps: seq<O.Step>, step: O.Step)
    ensures O.Run(s, batchSize, steps + [step]) == O.Apply(O.Run(s, batchSize, steps), batchSize, step)
  {
    assert (steps + [step])[..|steps|] == steps;
  }

  lemma CommitIsInserted(sys: System, s: L.Step, batchSize: int)
    requires Inv(sys) && Facts.Commits(sys.ledger, s)
    ensures AfterLedger(sys, s).outbox ==
            O.Apply(sys.outbox, batchSize, O.Inserted(EventOf(L.Attempt(sys.ledger.runs[s.run], s.journalId, s.eventId))))
  {
    NewEventIsFresh(sys.ledger, sys.outbox, EventOf(L.Attempt(sys.ledger.runs[s.run], s.journalId, s.eventId)));
  }

  lemma {:induction false} PlayIsRun(sys: System, batchSize: int, moves: seq<Move>)
    requires Initial(sys)
    ensures Play(sys, batchSize, moves).outbox == O.Run(O.EMPTY, batchSize, OutboxSteps(sys, batchSize, moves))
    decreases |moves|
  {
    if moves != [] {
      var n := |moves| - 1;
      var before, earlier := Play(sys, batchSize, moves[..n]), OutboxSteps(sys, batchSize, moves[..n]);
      PlayIsRun(sys, batchSize, moves[..n]);
      match moves[n]
      case WorkerMove(p) => OneMore(O.EMPTY, batchSize, earlier, O.Polled(p));
      case LedgerMove(s) =>
        if Facts.Commits(before.ledger, s) {
          PlayKeepsInv(sys, batchSize, moves[..n]);
          CommitIsInserted(before, s, batchSize);
          OneMore(O.EMPTY, batchSize, earlier,
                  O.Inserted(EventOf(L.Attempt(before.ledger.runs[s.run], s.journalId, s.eventId))));
        }
    }
  }

  /** While the times drawn follow the commits, first deliveries are a prefix of the commits' events exactly when no
      step of the outbox overtakes an undelivered event. */
  lemma OrderWhileClockFollows(sys: System, batchSize: int, moves: seq<Move>)
    requires Initial(sys) && ClockFollowsCommits(Play(sys, batchSize, moves).ledger.log)
    ensures var end := Play(sys, batchSize, moves);
            D.FirstOccurrences(end.outbox.delivered) <= Invariant.EventsOf(end.ledger.log) <==>
            Order.NoneOvertakes(batchSize, OutboxSteps(sys, batchSize, moves))
  {
    TableIsCommitOrderIff(sys, batchSize, moves);
    PlayIsRun(sys, batchSize, moves);
    Order.OrderIffNoneOvertakes(batchSize, OutboxSteps(sys, batchSize, moves));
  }

  // --- First deliveries in commit order ---------------------------------------------------------------------

  /** Each commit's event is first delivered after those of all earlier commits. */
  ghost predicate InCommitOrder(sys: System) {
    D.Ordered(Invariant.EventsOf(sys.ledger.log), sys.outbox.delivered)
  }

  /** Row r, of an earlier commit than the one delivered from row q, is undelivered, and is under a live claim or
      stands behind row q. */
  ghost predicate PassedBy(sys: System, now: int, q: nat, i: nat, j: nat, r: nat) {
    var log, rows := sys.ledger.log, sys.outbox.rows;
    && i < j < |log| && q < |rows| && r < |rows|
    && rows[q].event == EventOf(log[j]) && rows[r].event == EventOf(log[i])
    && rows[r].event !in sys.outbox.delivered
    && (O.LiveClaim(rows[r], now) || q < r)
  }

  /** The turn delivers a commit's event past that of an earlier one. */
  ghost predicate Passes(sys: System, batchSize: int, p: O.Poll) {
    exists q: nat, i: nat, j: nat, r: nat ::
      q in O.RoundDelivers(sys.outbox, batchSize, p) && PassedBy(sys, p.now, q, i, j, r)
  }

  lemma EventsAreDistinct(w: L.World)
    requires Invariant.LogSound(w)
    ensures D.Distinct(Invariant.EventsOf(w.log))
  {
    forall i, j | 0 <= i < j < |w.log|
      ensures EventOf(w.log[i]) != EventOf(w.log[j])
    {
      assert Invariant.Distinct(w.log[i], w.log[j]);
      assert EventOf(w.log[i]).id == w.log[i].eventId && EventOf(w.log[j]).id == w.log[j].eventId;
    }
  }

  lemma RowOfCommit(sys: System, i: nat) returns (r: nat)
    requires Inv(sys) && i < |sys.ledger.log|
    ensures r < |sys.outbox.rows| && sys.outbox.rows[r].event == EventOf(sys.ledger.log[i])
  {
    var es := O.Events(sys.outbox.rows);
    assert EventOf(sys.ledger.log[i]) in es;
    r :| 0 <= r < |es| && es[r] == EventOf(sys.ledger.log[i]);
  }

  /** Of the rows delivered before the k-th, none is row r exactly when r is left or comes no earlier. */
  lemma EarlierInRound(s: O.State, batchSize: int, p: O.Poll, k: nat, r: nat)
    requires O.Inv(s) && k < |O.RoundDelivers(s, batchSize, p)| && r < |s.rows| && !s.rows[r].published
    ensures var ps := O.RoundDelivers(s, batchSize, p);
            r in ps[..k] <==> !O.LiveClaim(s.rows[r], p.now) && r < ps[k]
  {
    var ps, batch := O.RoundDelivers(s, batchSize, p), O.Batch(s.rows, p.now, batchSize);
    O.DeliveredAfterPoll(s, batchSize, p);
    if r in ps[..k] {
      var l :| 0 <= l < k && ps[l] == r;
      assert batch[l] == r;
      Order.BatchIsEligible(s.rows, p.now, batchSize, r);
    }
    if !O.LiveClaim(s.rows[r], p.now) && r < ps[k] {
      Order.EarlierEligibleIsInBatch(s.rows, p.now, batchSize, |ps|, k, r);
      var l :| 0 <= l < |ps| && ps[l] == r;
      assert l < k;
      assert ps[..k][l] == r;
    }
  }

  lemma EventInRound(s: O.State, ps: seq<nat>, k: nat, r: nat)
    requires O.IdsDistinct(s.rows) && D.Ascending(ps, |s.rows|) && k <= |ps| && r < |s.rows|
    ensures s.rows[r].event in D.Pick(O.Events(s.rows), ps)[..k] <==> r in ps[..k]
  {
    O.DistinctEvents(s.rows);
    D.PickMembers(O.Events(s.rows), ps[..k], r);
    assert D.Pick(O.Events(s.rows), ps)[..k] == D.Pick(O.Events(s.rows), ps[..k]);
  }

  /** When a turn comes to its k-th delivery, another undelivered row is still undelivered exactly when it is left
      out or stands behind. */
  lemma StillUndelivered(s: O.State, batchSize: int, p: O.Poll, k: nat, r: nat)
    requires O.Inv(s) && k < |O.RoundDelivers(s, batchSize, p)| && r < |s.rows|
    requires r != O.RoundDelivers(s, batchSize, p)[k] && s.rows[r].event !in s.delivered
    ensures D.Ascending(O.RoundDelivers(s, batchSize, p), |s.rows|)
    ensures var ps := O.RoundDelivers(s, batchSize, p);
            s.rows[r].event !in D.Pick(O.Events(s.rows), ps)[..k] <==> O.LiveClaim(s.rows[r], p.now) || ps[k] < r
  {
    O.DeliveredAfterPoll(s, batchSize, p);
    assert !s.rows[r].published;
    EventInRound(s, O.RoundDelivers(s, batchSize, p), k, r);
    EarlierInRound(s, batchSize, p, k, r);
  }

  lemma RowsOfTwo(w: L.World, rows: seq<O.Row>, q: nat, r: nat, i: nat, j: nat)
    requires Invariant.LogSound(w) && i < j < |w.log| && q < |rows| && r < |rows|
    requires rows[q].event == EventOf(w.log[j]) && rows[r].event == EventOf(w.log[i])
    ensures q != r
  {
    EventsAreDistinct(w);
    assert Invariant.EventsOf(w.log)[i] != Invariant.EventsOf(w.log)[j];
  }

  /** One delivery of a turn comes too early for an earlier commit exactly when it passes that commit's row. */
  lemma TooEarlyIff(sys: System, batchSize: int, p: O.Poll, k: nat, i: nat, j: nat, r: nat)
    requires Inv(sys) && k < |O.RoundDelivers(sys.outbox, batchSize, p)| && i < j < |sys.ledger.log|
    requires r < |sys.outbox.rows| && sys.outbox.rows[r].event == EventOf(sys.ledger.log[i])
    requires O.RoundDelivers(sys.outbox, batchSize, p)[k] < |sys.outbox.rows|
    requires sys.outbox.rows[O.RoundDelivers(sys.outbox, batchSize, p)[k]].event == EventOf(sys.ledger.log[j])
    ensures D.Ascending(O.RoundDelivers(sys.outbox, batchSize, p), |sys.outbox.rows|)
    ensures var ps := O.RoundDelivers(sys.outbox, batchSize, p);
            var xs, es := D.Pick(O.Events(sys.outbox.rows), ps), Invariant.EventsOf(sys.ledger.log);
            && es[j] == xs[k]
            && (es[i] !in sys.outbox.delivered && es[i] !in xs[..k] <==> PassedBy(sys, p.now, ps[k], i, j, r))
  {
    O.DeliveredAfterPoll(sys.outbox, batchSize, p);
    RowsOfTwo(sys.ledger, sys.outbox.rows, O.RoundDelivers(sys.outbox, batchSize, p)[k], r, i, j);
    if sys.outbox.rows[r].event !in sys.outbox.delivered {
      StillUndelivered(sys.outbox, batchSize, p, k, r);
    }
  }

  lemma ExtendsIff(sys: System, batchSize: int, p: O.Poll)
    requires Inv(sys)
    ensures D.Ascending(O.RoundDelivers(sys.outbox, batchSize, p), |sys.outbox.rows|)
    ensures var xs := D.Pick(O.Events(sys.outbox.rows), O.RoundDelivers(sys.outbox, batchSize, p));
            D.Extends(Invariant.EventsOf(sys.ledger.log), sys.outbox.delivered, xs) <==> !Passes(sys, batchSize, p)
  {
    var ps := O.RoundDelivers(sys.outbox, batchSize, p);
    var es := Invariant.EventsOf(sys.ledger.log);
    O.DeliveredAfterPoll(sys.outbox, batchSize, p);
    var xs := D.Pick(O.Events(sys.outbox.rows), ps);
    if D.Extends(es, sys.outbox.delivered, xs) {
      forall q: nat, i: nat, j: nat, r: nat | q in ps
        ensures !PassedBy(sys, p.now, q, i, j, r)
      {
        if PassedBy(sys, p.now, q, i, j, r) {
          var k :| 0 <= k < |ps| && ps[k] == q;
          TooEarlyIff(sys, batchSize, p, k, i, j, r);
        }
      }
    }
    if !Passes(sys, batchSize, p) {
      forall k, i, j | 0 <= k < |xs| && 0 <= i < j < |es| && es[j] == xs[k]
        ensures es[i] in sys.outbox.delivered || es[i] in xs[..k]
      {
        var r := RowOfCommit(sys, i);
        TooEarlyIff(sys, batchSize, p, k, i, j, r);
        assert ps[k] in ps;
      }
    }
  }

  lemma StoredAreCommitted(w: L.World, rows: seq<O.Row>, ps: seq<nat>)
    requires SameEvents(w, rows) && D.Ascending(ps, |rows|)
    ensures var xs := D.Pick(O.Events(rows), ps); forall k :: 0 <= k < |xs| ==> xs[k] in Invariant.EventsOf(w.log)
  {
    var xs, es := D.Pick(O.Events(rows), ps), Invariant.EventsOf(w.log);
    forall k | 0 <= k < |xs|
      ensures xs[k] in es
    {
      assert IsCommitted(w, rows[ps[k]].event);
      var i :| 0 <= i < |w.log| && EventOf(w.log[i]) == rows[ps[k]].event;
      assert es[i] == xs[k];
    }
  }

  lemma TurnExtends(w: L.World, s: O.State, batchSize: int, p: O.Poll)
    requires Invariant.LogSound(w) && O.IdsDistinct(s.rows) && SameEvents(w, s.rows)
    ensures D.Ascending(O.RoundDelivers(s, batchSize, p), |s.rows|)
    ensures var es, xs := Invariant.EventsOf(w.log), D.Pick(O.Events(s.rows), O.RoundDelivers(s, batchSize, p));
            D.Ordered(es, O.AfterPoll(s, batchSize, p).delivered) <==> D.Ordered(es, s.delivered) && D.Extends(es, s.delivered, xs)
  {
    var ps := O.RoundDelivers(s, batchSize, p);
    O.DeliveredAfterPoll(s, batchSize, p);
    EventsAreDistinct(w);
    StoredAreCommitted(w, s.rows, ps);
    D.OrderedExtend(Invariant.EventsOf(w.log), s.delivered, D.Pick(O.Events(s.rows), ps));
  }

  lemma TurnCommitOrder(sys: System, batchSize: int, p: O.Poll)
    requires Inv(sys)
    ensures InCommitOrder(AfterMove(sys, batchSize, WorkerMove(p))) <==> InCommitOrder(sys) && !Passes(sys, batchSize, p)
  {
    TurnExtends(sys.ledger, sys.outbox, batchSize, p);
    ExtendsIff(sys, batchSize, p);
  }

  lemma NewEventIsUndelivered(w: L.World, s: O.State, e: OutboxEvent)
    requires Invariant.LogSound(w) && O.Inv(s) && SameEvents(w, s.rows) && e.id !in w.drawn
    ensures e !in s.delivered
  {
    NewEventIsFresh(w, s, e);
    O.NewIsUndelivered(s, e);
  }

  lemma NewCommitKeepsOrder(log: seq<Commit>, c: Commit, d: seq<OutboxEvent>)
    requires EventOf(c) !in d
    ensures D.Ordered(Invariant.EventsOf(log + [c]), d) <==> D.Ordered(Invariant.EventsOf(log), d)
  {
    var es := Invariant.EventsOf(log);
    D.OrderedInsert(es, |es|, EventOf(c), d);
    assert D.InsertAt(es, |es|, EventOf(c)) == Invariant.EventsOf(log + [c]);
  }

  lemma LedgerMoveDelivers(sys: System, batchSize: int, s: L.Step)
    ensures AfterMove(sys, batchSize, LedgerMove(s)).outbox.delivered == sys.outbox.delivered
  {
  }

  lemma FreshCommitKeepsOrder(w: L.World, s: O.State, c: Commit)
    requires Invariant.LogSound(w) && O.Inv(s) && SameEvents(w, s.rows) && c.eventId !in w.drawn
    ensures D.Ordered(Invariant.EventsOf(w.log + [c]), s.delivered) <==> D.Ordered(Invariant.EventsOf(w.log), s.delivered)
  {
    NewEventIsUndelivered(w, s, EventOf(c));
    NewCommitKeepsOrder(w.log, c, s.delivered);
  }

  lemma SameOrder(sys: System, sys': System)
    requires sys'.outbox.delivered == sys.outbox.delivered
    requires D.Ordered(Invariant.EventsOf(sys'.ledger.log), sys.outbox.delivered) <==>
             D.Ordered(Invariant.EventsOf(sys.ledger.log), sys.outbox.delivered)
    ensures InCommitOrder(sys') <==> InCommitOrder(sys)
  {
  }

  lemma CommitKeepsOrder(sys: System, batchSize: int, s: L.Step)
    requires Inv(sys)
    ensures InCommitOrder(AfterMove(sys, batchSize, LedgerMove(s))) <==> InCommitOrder(sys)
  {
    LedgerMoveDelivers(sys, batchSize, s);
    MoveLog(sys, batchSize, LedgerMove(s));
    if Facts.Commits(sys.ledger, s) {
      FreshCommitKeepsOrder(sys.ledger, sys.outbox, L.Attempt(sys.ledger.runs[s.run], s.journalId, s.eventId));
    }
    SameOrder(sys, AfterMove(sys, batchSize, LedgerMove(s)));
  }

  /** No turn of the worker passes an earlier commit. */
  ghost predicate NonePasses(sys: System, batchSize: int, moves: seq<Move>) {
    moves != [] ==>
      var n := |moves| - 1;
      && NonePasses(sys, batchSize, moves[..n])
      && (moves[n].WorkerMove? ==> !Passes(Play(sys, batchSize, moves[..n]), batchSize, moves[n].poll))
  }

  lemma {:induction false} OrderedIffNonePasses(sys: System, batchSize: int, moves: seq<Move>)
    requires Initial(sys)
    ensures InCommitOrder(Play(sys, batchSize, moves)) <==> NonePasses(sys, batchSize, moves)
    decreases |moves|
  {
    if moves != [] {
      var n := |moves| - 1;
      OrderedIffNonePasses(sys, batchSize, moves[..n]);
      PlayKeepsInv(sys, batchSize, moves[..n]);
      match moves[n]
      case LedgerMove(s) => CommitKeepsOrder(Play(sys, batchSize, moves[..n]), batchSize, s);
      case WorkerMove(p) => TurnCommitOrder(Play(sys, batchSize, moves[..n]), batchSize, p);
    }
  }

  lemma AllDeliveredAreCommitted(sys: System)
    requires Inv(sys)
    ensures forall q :: 0 <= q < |sys.outbox.delivered| ==> sys.outbox.delivered[q] in Invariant.EventsOf(sys.ledger.log)
  {
    forall q | 0 <= q < |sys.outbox.delivered|
      ensures sys.outbox.delivered[q] in Invariant.EventsOf(sys.ledger.log)
    {
      assert sys.outbox.delivered[q] in O.Events(sys.outbox.rows);
      var i := CommitOf(sys, sys.outbox.delivered[q]);
      assert Invariant.EventsOf(sys.ledger.log)[i] == sys.outbox.delivered[q];
    }
  }

  /** Whatever the clocks: the deliveries reduced to first occurrences are a prefix of the commits' events exactly
      when no turn delivers past an earlier commit, one still claimed or stored behind. */
  lemma CommitOrderIff(sys: System, batchSize: int, moves: seq<Move>)
    requires Initial(sys)
    ensures var end := Play(sys, batchSize, moves);
            D.FirstOccurrences(end.outbox.delivered) <= Invariant.EventsOf(end.ledger.log) <==>
            NonePasses(sys, batchSize, moves)
  {
    var end := Play(sys, batchSize, moves);
    OrderedIffNonePasses(sys, batchSize, moves);
    PlayKeepsInv(sys, batchSize, moves);
    EventsAreDistinct(end.ledger);
    AllDeliveredAreCommitted(end);
    D.OrderedIffPrefix(Invariant.EventsOf(end.ledger.log), end.outbox.delivered);
  }

  // --- Marks in commit order -----------------------------------------------------------------------------------

  /** Rows r and q hold the events of an earlier and of a later commit. */
  ghost predicate EarlierRow(w: L.World, rows: seq<O.Row>, i: nat, j: nat, r: nat, q: nat) {
    && i < j < |w.log| && r < |rows| && q < |rows|
    && rows[r].event == EventOf(w.log[i]) && rows[q].event == EventOf(w.log[j])
  }

  /** The marked events are those of the first commits. */
  ghost predicate MarkedFirst(sys: System) {
    forall i: nat, j: nat, r: nat, q: nat {:trigger EarlierRow(sys.ledger, sys.outbox.rows, i, j, r, q)} ::
      EarlierRow(sys.ledger, sys.outbox.rows, i, j, r, q) && sys.outbox.rows[q].published ==> sys.outbox.rows[r].published
  }

  /** The turn leaves row r out: it is under a live claim or stands behind all that the turn marks. */
  ghost predicate LeavesOut(s: O.State, batchSize: int, p: O.Poll, r: nat)
    requires r < |s.rows|
  {
    && !s.rows[r].published
    && (O.LiveClaim(s.rows[r], p.now) || forall m :: m in O.MarkedRows(s, batchSize, p) ==> m < r)
  }

  /** The turn marks a commit's event and leaves out that of an earlier one. */
  ghost predicate MarksPassing(sys: System, batchSize: int, p: O.Poll) {
    exists i: nat, j: nat, r: nat, q: nat ::
      && EarlierRow(sys.ledger, sys.outbox.rows, i, j, r, q)
      && q in O.MarkedRows(sys.outbox, batchSize, p) && LeavesOut(sys.outbox, batchSize, p, r)
  }

  lemma LeftOutIff(s: O.State, batchSize: int, p: O.Poll, r: nat)
    requires O.Inv(s) && r < |s.rows| && !s.rows[r].published
    ensures LeavesOut(s, batchSize, p, r) <==> r !in O.MarkedRows(s, batchSize, p)
  {
    var ps, batch := O.MarkedRows(s, batchSize, p), O.Batch(s.rows, p.now, batchSize);
    Marks.MarkedAreBatch(s, batchSize, p);
    if r in ps {
      Order.BatchIsEligible(s.rows, p.now, batchSize, r);
    }
    if m :| m in ps && r <= m && !O.LiveClaim(s.rows[r], p.now) {
      var k :| 0 <= k < |ps| && ps[k] == m;
      if r < m {
        Order.EarlierEligibleIsInBatch(s.rows, p.now, batchSize, |ps|, k, r);
      }
    }
  }

  lemma TurnKeepsRows(s: O.State, batchSize: int, p: O.Poll, r: nat)
    requires O.Inv(s) && r < |s.rows|
    ensures var rows' := O.AfterPoll(s, batchSize, p).rows;
            && |rows'| == |s.rows| && rows'[r].event == s.rows[r].event
            && (rows'[r].published <==> s.rows[r].published || r in O.MarkedRows(s, batchSize, p))
  {
    O.RowAfterPoll(s, batchSize, p, r);
  }

  lemma PassingBreaks(w: L.World, s: O.State, batchSize: int, p: O.Poll, i: nat, j: nat, r: nat, q: nat)
    requires O.Inv(s) && EarlierRow(w, s.rows, i, j, r, q)
    requires q in O.MarkedRows(s, batchSize, p) && LeavesOut(s, batchSize, p, r)
    ensures var rows' := O.AfterPoll(s, batchSize, p).rows;
            EarlierRow(w, rows', i, j, r, q) && rows'[q].published && !rows'[r].published
  {
    LeftOutIff(s, batchSize, p, r);
    TurnKeepsRows(s, batchSize, p, r);
    TurnKeepsRows(s, batchSize, p, q);
  }

  lemma NotPassingKeeps(sys: System, batchSize: int, p: O.Poll, i: nat, j: nat, r: nat, q: nat)
    requires O.Inv(sys.outbox) && MarkedFirst(sys) && !MarksPassing(sys, batchSize, p)
    requires EarlierRow(sys.ledger, O.AfterPoll(sys.outbox, batchSize, p).rows, i, j, r, q)
    requires O.AfterPoll(sys.outbox, batchSize, p).rows[q].published
    ensures O.AfterPoll(sys.outbox, batchSize, p).rows[r].published
  {
    var s := sys.outbox;
    RowsOfTurn(s, batchSize, p);
    TurnKeepsRows(s, batchSize, p, r);
    TurnKeepsRows(s, batchSize, p, q);
    assert EarlierRow(sys.ledger, s.rows, i, j, r, q);
    if !s.rows[r].published {
      LeftOutIff(s, batchSize, p, r);
    }
  }

  lemma RowsOfTurn(s: O.State, batchSize: int, p: O.Poll)
    requires O.Inv(s)
    ensures |O.AfterPoll(s, batchSize, p).rows| == |s.rows|
  {
    O.PollRows(s, batchSize, p);
    assert |O.Events(O.AfterPoll(s, batchSize, p).rows)| == |O.Events(s.rows)|;
  }

  lemma TurnMarks(sys: System, batchSize: int, p: O.Poll)
    requires Inv(sys) && MarkedFirst(sys)
    ensures MarkedFirst(AfterMove(sys, batchSize, WorkerMove(p))) <==> !MarksPassing(sys, batchSize, p)
  {
    if MarksPassing(sys, batchSize, p) {
      TurnPasses(sys, batchSize, p);
    } else {
      TurnPassesNone(sys, batchSize, p);
    }
  }

  lemma TurnPasses(sys: System, batchSize: int, p: O.Poll)
    requires O.Inv(sys.outbox) && MarksPassing(sys, batchSize, p)
    ensures !MarkedFirst(sys.(outbox := O.AfterPoll(sys.outbox, batchSize, p)))
  {
    var i: nat, j: nat, r: nat, q: nat :|
      && EarlierRow(sys.ledger, sys.outbox.rows, i, j, r, q)
      && q in O.MarkedRows(sys.outbox, batchSize, p) && LeavesOut(sys.outbox, batchSize, p, r);
    PassingBreaks(sys.ledger, sys.outbox, batchSize, p, i, j, r, q);
  }

  lemma TurnPassesNone(sys: System, batchSize: int, p: O.Poll)
    requires O.Inv(sys.outbox) && MarkedFirst(sys) && !MarksPassing(sys, batchSize, p)
    ensures MarkedFirst(sys.(outbox := O.AfterPoll(sys.outbox, batchSize, p)))
  {
    var rows' := O.AfterPoll(sys.outbox, batchSize, p).rows;
    forall i: nat, j: nat, r: nat, q: nat | EarlierRow(sys.ledger, rows', i, j, r, q) && rows'[q].published
      ensures rows'[r].published
    {
      NotPassingKeeps(sys, batchSize, p, i, j, r, q);
    }
  }

  lemma RowBefore(w: L.World, s: O.State, c: Commit, i: nat, r: nat)
    requires O.IdsDistinct(O.AfterInsert(s, EventOf(c)).rows) && i < |w.log| && EventOf(w.log[i]).id != EventOf(c).id
    requires r < |O.AfterInsert(s, EventOf(c)).rows| && O.AfterInsert(s, EventOf(c)).rows[r].event == EventOf(w.log[i])
    ensures var p := O.Place(s.rows, EventOf(c).createdAt); var r0 := if r < p then r else r - 1;
            r != p && 0 <= r0 < |s.rows| && s.rows[r0] == O.AfterInsert(s, EventOf(c)).rows[r]
  {
  }

  lemma NewCommitMarks(sys: System, w': L.World, c: Commit)
    requires Invariant.LogSound(sys.ledger) && MarkedFirst(sys) && w'.log == sys.ledger.log + [c]
    requires c.eventId !in sys.ledger.drawn
    requires O.IdsDistinct(O.AfterInsert(sys.outbox, EventOf(c)).rows)
    ensures MarkedFirst(System(w', O.AfterInsert(sys.outbox, EventOf(c))))
  {
    var w, s, s' := sys.ledger, sys.outbox, O.AfterInsert(sys.outbox, EventOf(c));
    var p := O.Place(s.rows, EventOf(c).createdAt);
    forall i: nat, j: nat, r: nat, q: nat | EarlierRow(w', s'.rows, i, j, r, q) && s'.rows[q].published
      ensures s'.rows[r].published
    {
      assert w'.log[i] == w.log[i] && Invariant.CommitSound(w, w.log[i]);
      RowBefore(w, s, c, i, r);
      if j == |w.log| {
        SameRow(s'.rows, q, p);
      } else {
        assert w'.log[j] == w.log[j] && Invariant.CommitSound(w, w.log[j]);
        RowBefore(w, s, c, j, q);
        assert EarlierRow(w, s.rows, i, j, if r < p then r else r - 1, if q < p then q else q - 1);
      }
    }
  }

  lemma SameRow(rows: seq<O.Row>, q: nat, r: nat)
    requires O.IdsDistinct(rows) && q < |rows| && r < |rows| && rows[q].event == rows[r].event
    ensures q == r
  {
    O.DistinctEvents(rows);
    assert O.Events(rows)[q] == O.Events(rows)[r];
  }

  lemma SameMarks(sys: System, sys': System)
    requires MarkedFirst(sys) && sys'.ledger.log == sys.ledger.log && sys'.outbox == sys.outbox
    ensures MarkedFirst(sys')
  {
    forall i: nat, j: nat, r: nat, q: nat |
      EarlierRow(sys'.ledger, sys'.outbox.rows, i, j, r, q) && sys'.outbox.rows[q].published
      ensures sys'.outbox.rows[r].published
    {
      assert EarlierRow(sys.ledger, sys.outbox.rows, i, j, r, q);
    }
  }

  lemma InsertedIdsDistinct(w: L.World, s: O.State, e: OutboxEvent)
    requires Invariant.LogSound(w) && O.IdsDistinct(s.rows) && SameEvents(w, s.rows) && e.id !in w.drawn
    ensures O.IdsDistinct(O.AfterInsert(s, e).rows)
  {
    NewEventIsFresh(w, s, e);
    O.IdsAfterInsert(s.rows, O.Place(s.rows, e.createdAt), O.Row(e, false, None));
  }

  lemma CommitKeepsMarks(sys: System, batchSize: int, s: L.Step)
    requires Inv(sys) && MarkedFirst(sys)
    ensures MarkedFirst(AfterMove(sys, batchSize, LedgerMove(s)))
  {
    MoveLog(sys, batchSize, LedgerMove(s));
    if Facts.Commits(sys.ledger, s) {
      var c := L.Attempt(sys.ledger.runs[s.run], s.journalId, s.eventId);
      InsertedIdsDistinct(sys.ledger, sys.outbox, EventOf(c));
      NewCommitMarks(sys, L.Apply(sys.ledger, s), c);
    } else {
      SameMarks(sys, AfterMove(sys, batchSize, LedgerMove(s)));
    }
  }

  ghost predicate AlwaysMarkedFirst(sys: System, batchSize: int, moves: seq<Move>) {
    && MarkedFirst(Play(sys, batchSize, moves))
    && (moves != [] ==> AlwaysMarkedFirst(sys, batchSize, moves[..|moves| - 1]))
  }

  ghost predicate NoneMarksPassing(sys: System, batchSize: int, moves: seq<Move>) {
    moves != [] ==>
      var n := |moves| - 1;
      && NoneMarksPassing(sys, batchSize, moves[..n])
      && (moves[n].WorkerMove? ==> !MarksPassing(Play(sys, batchSize, moves[..n]), batchSize, moves[n].poll))
  }

  /** Whatever the clocks: all along, the marked events are those of the first commits exactly when no turn marks an
      event and leaves out that of an earlier commit, one still claimed or stored behind. */
  lemma {:induction false} MarkedCommitOrderIff(sys: System, batchSize: int, moves: seq<Move>)
    requires Initial(sys)
    ensures AlwaysMarkedFirst(sys, batchSize, moves) <==> NoneMarksPassing(sys, batchSize, moves)
    decreases |moves|
  {
    if moves != [] {
      var n := |moves| - 1;
      MarkedCommitOrderIff(sys, batchSize, moves[..n]);
      if AlwaysMarkedFirst(sys, batchSize, moves[..n]) {
        PlayKeepsInv(sys, batchSize, moves[..n]);
        match moves[n]
        case LedgerMove(s) => CommitKeepsMarks(Play(sys, batchSize, moves[..n]), batchSize, s);
        case WorkerMove(p) => TurnMarks(Play(sys, batchSize, moves[..n]), batchSize, p);
      }
    }
  }
}
