/** Two payments that commit in the other order than their times were drawn: nothing fails, and the consumers hear of
    the second commit first. */
module LateCommits {
  import opened Common
  import opened Entities
  import opened LedgerSteps
  import opened LedgerTheorems
  import opened LedgerService
  import opened LedgerCalls
  import Invariant = LedgerInvariant
  import E = EndToEnd
  import C = CommitOrder
  import D = DeliveryOrder
  import O = Outbox
  import Queues = OutboxQueue

  /** The first payment up to its write: its time is drawn, its hold taken. */
  function Opening(cmd: Command, env: Environment): seq<Step> {
    [Begin(cmd), Read(0, env.found), Validate(0, env.verdict, env.id, env.at), Reserve(0, env.reply)]
  }

  function Waiting(w0: World, cmd: Command, env: Environment): World
    requires CanPay(w0, cmd, env)
  {
    WithRun(WithHold(w0, cmd, env), cmd, Writing(env.id, env.at))
  }

  lemma OpeningWaits(w0: World, cmd: Command, env: Environment)
    requires w0.runs == [] && CanPay(w0, cmd, env)
    ensures Exec(w0, Opening(cmd, env)) == Waiting(w0, cmd, env)
  {
    var steps := Opening(cmd, env);
    ExecFour(w0, [], steps);
    assert [] + steps == steps && Exec(w0, []) == w0;
    assert Apply(w0, Begin(cmd)) == WithRun(w0, cmd, Reading);
    QuietRead(w0, cmd, env);
    QuietValidate(w0, cmd, env);
    ReserveTakesHold(w0, cmd, env);
  }

  /** The second payment, from beginning to end, while the first waits; then the first one's write. */
  function Script(w0: World, a: Command, first: Environment, b: Command, second: Environment): seq<Step>
    requires CanPay(w0, a, first)
  {
    Opening(a, first) + StepsOf(Waiting(w0, a, first), b, second) + [Write(0, first.journalId, first.eventId, None)]
  }

  /** After the second payment. */
  function Between(w0: World, a: Command, first: Environment, b: Command, second: Environment): World
    requires CanPay(w0, a, first)
  {
    Operation(Waiting(w0, a, first), b, second)
  }

  predicate CanInterleave(w0: World, a: Command, first: Environment, b: Command, second: Environment) {
    && Initial(w0) && CanPay(w0, a, first) && CanPay(Waiting(w0, a, first), b, second)
    && second.fault == None && first.at < second.at
    && Commits(Between(w0, a, first, b, second), Write(0, first.journalId, first.eventId, None))
  }

  function FirstCommit(a: Command, first: Environment): Commit {
    Commit(a, first.id, first.journalId, first.eventId, first.at)
  }

  lemma BetweenIs(w0: World, a: Command, first: Environment, b: Command, second: Environment)
    requires CanInterleave(w0, a, first, b, second)
    ensures var w := Between(w0, a, first, b, second);
            w.log == [FirstCommit(b, second)] && |w.runs| == 2 && w.runs[0] == Run(a, Writing(first.id, first.at))
  {
    PaymentIsBooked(Waiting(w0, a, first), b, second);
  }

  lemma ScriptLog(w0: World, a: Command, first: Environment, b: Command, second: Environment)
    requires CanInterleave(w0, a, first, b, second)
    ensures Exec(w0, Script(w0, a, first, b, second)).log == [FirstCommit(b, second), FirstCommit(a, first)]
  {
    var waiting, write := Waiting(w0, a, first), Write(0, first.journalId, first.eventId, None);
    OpeningWaits(w0, a, first);
    ExecConcat(w0, Opening(a, first), StepsOf(waiting, b, second));
    OperationIsExec(waiting, b, second);
    ExecAppend(w0, Opening(a, first) + StepsOf(waiting, b, second), write);
    BetweenIs(w0, a, first, b, second);
    OnlyWritesCommit(Between(w0, a, first, b, second), write);
  }

  // --- The worker's table meanwhile -------------------------------------------------------------------------

  function Moves(steps: seq<Step>): (moves: seq<E.Move>)
    ensures |moves| == |steps| && forall i :: 0 <= i < |steps| ==> moves[i] == E.LedgerMove(steps[i])
  {
    seq(|steps|, i requires 0 <= i < |steps| => E.LedgerMove(steps[i]))
  }

  ghost predicate Untouched(s: O.State) {
    s.delivered == [] && forall r :: 0 <= r < |s.rows| ==> !s.rows[r].published && s.rows[r].claimedAt.None?
  }

  lemma InsertUntouched(s: O.State, e: OutboxEvent)
    requires Untouched(s)
    ensures Untouched(O.AfterInsert(s, e))
  {
  }

  lemma {:induction false} LedgerAlone(sys: E.System, batchSize: int, steps: seq<Step>)
    requires Untouched(sys.outbox)
    ensures var mid := E.Play(sys, batchSize, Moves(steps));
            mid.ledger == Exec(sys.ledger, steps) && Untouched(mid.outbox)
    decreases |steps|
  {
    if steps != [] {
      var n := |steps| - 1;
      LedgerAlone(sys, batchSize, steps[..n]);
      assert Moves(steps)[..n] == Moves(steps[..n]);
      var before := E.Play(sys, batchSize, Moves(steps[..n]));
      if Commits(before.ledger, steps[n]) {
        InsertUntouched(before.outbox, EventOf(Attempt(before.ledger.runs[steps[n].run], steps[n].journalId, steps[n].eventId)));
      }
    }
  }

  /** Of two rows, the one with the earlier time comes first. */
  lemma TwoByCreation(w: World, rows: seq<O.Row>, late: Commit, early: Commit)
    requires E.SameEvents(w, rows) && O.ByCreation(rows) && O.IdsDistinct(rows)
    requires w.log == [late, early] && early.at < late.at
    ensures O.Events(rows) == [EventOf(early), EventOf(late)]
  {
    assert O.SameId(rows[0], rows[1]) || rows[0].event != rows[1].event;
    forall k | 0 <= k < 2
      ensures rows[k].event == EventOf(late) || rows[k].event == EventOf(early)
    {
      assert E.IsCommitted(w, rows[k].event);
    }
    O.DistinctEvents(rows);
    assert O.Events(rows)[0] != O.Events(rows)[1];
  }

  lemma TwoWait(rows: seq<O.Row>)
    requires |rows| == 2 && !rows[0].published && !rows[1].published
    ensures O.UnpublishedRows(rows) == [0, 1]
  {
    assert O.UnpublishedRows(rows[..0]) == [];
    assert rows[..1][..0] == [];
    assert O.UnpublishedRows(rows[..1]) == [0];
  }

  lemma HeadBatch(s: O.State, p: O.Poll)
    requires Untouched(s) && |s.rows| == 2 && Queues.Clean(p, 1)
    ensures O.RoundDelivers(s, 1, p) == [0] && O.MarkedRows(s, 1, p) == [0]
  {
    TwoWait(s.rows);
    Queues.FreeBatch(s.rows, p.now, 1);
    assert [0, 1][..1] == [0];
    assert O.Batch(s.rows, p.now, 1) == [0];
  }

  lemma HeadOfTwo(s: O.State, early: OutboxEvent, late: OutboxEvent, p: O.Poll)
    requires O.Inv(s) && Untouched(s) && O.Events(s.rows) == [early, late] && Queues.Clean(p, 1)
    ensures var s' := O.AfterPoll(s, 1, p);
            && s'.delivered == [early]
            && |s'.rows| == 2 && s'.rows[0].event == early && s'.rows[1].event == late
            && s'.rows[0].published && !s'.rows[1].published
  {
    assert |O.Events(s.rows)| == |s.rows| == 2;
    assert O.Events(s.rows)[0] == early && O.Events(s.rows)[1] == late;
    HeadBatch(s, p);
    O.DeliveredAfterPoll(s, 1, p);
    O.RowAfterPoll(s, 1, p, 0);
    O.RowAfterPoll(s, 1, p, 1);
  }

  /** The clean turn that follows delivers and marks the later commit's event, and not the earlier one's: neither
      the deliveries nor the marks are in commit order. */
  lemma LateCommitIsHeardFirst(w0: World, a: Command, first: Environment, b: Command, second: Environment, p: O.Poll)
    requires CanInterleave(w0, a, first, b, second) && Queues.Clean(p, 1)
    ensures var moves := Moves(Script(w0, a, first, b, second)) + [E.WorkerMove(p)];
            var end := E.Play(E.System(w0, O.EMPTY), 1, moves);
            && Invariant.EventsOf(end.ledger.log) == [EventOf(FirstCommit(b, second)), EventOf(FirstCommit(a, first))]
            && end.outbox.delivered == [EventOf(FirstCommit(a, first))]
            && !(D.FirstOccurrences(end.outbox.delivered) <= Invariant.EventsOf(end.ledger.log))
            && !C.MarkedFirst(end)
  {
    var sys, steps := E.System(w0, O.EMPTY), Script(w0, a, first, b, second);
    var late, early := FirstCommit(b, second), FirstCommit(a, first);
    var mid := E.Play(sys, 1, Moves(steps));
    LedgerAlone(sys, 1, steps);
    ScriptLog(w0, a, first, b, second);
    E.PlayKeepsInv(sys, 1, Moves(steps));
    C.PlayByCreation(sys, 1, Moves(steps));
    TwoByCreation(mid.ledger, mid.outbox.rows, late, early);
    HeadOfTwo(mid.outbox, EventOf(early), EventOf(late), p);
    assert (Moves(steps) + [E.WorkerMove(p)])[..|steps|] == Moves(steps);
    HeardOutOfOrder(E.System(mid.ledger, O.AfterPoll(mid.outbox, 1, p)), late, early);
  }

  lemma HeardOutOfOrder(end: E.System, late: Commit, early: Commit)
    requires end.ledger.log == [late, early] && early.at < late.at && end.outbox.delivered == [EventOf(early)]
    requires |end.outbox.rows| == 2 && end.outbox.rows[0].event == EventOf(early) && end.outbox.rows[1].event == EventOf(late)
    requires end.outbox.rows[0].published && !end.outbox.rows[1].published
    ensures Invariant.EventsOf(end.ledger.log) == [EventOf(late), EventOf(early)]
    ensures !(D.FirstOccurrences(end.outbox.delivered) <= Invariant.EventsOf(end.ledger.log))
    ensures !C.MarkedFirst(end)
  {
    var d := end.outbox.delivered;
    assert d[..0] == [] && D.FirstOccurrences(d) == d;
    assert EventOf(early).createdAt < EventOf(late).createdAt;
    assert C.EarlierRow(end.ledger, end.outbox.rows, 0, 1, 1, 0);
  }
}
