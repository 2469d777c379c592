/** The ledger and its outbox worker side by side: from a command to what the consumers see. */
module EndToEnd {
  import opened Common
  import opened Decimals
  import opened Entities
  import opened LedgerRules
  import L = LedgerSteps
  import Invariant = LedgerInvariant
  import Facts = LedgerTheorems
  import Rows = BookedRows
  import D = DeliveryOrder
  import O = Outbox
  import Queues = OutboxQueue

  datatype System = System(ledger: L.World, outbox: O.State)

  datatype Move = LedgerMove(step: L.Step) | WorkerMove(poll: O.Poll)

  /** A commit inserts its event into the table the worker reads. */
  function AfterLedger(sys: System, s: L.Step): System {
    System(L.Apply(sys.ledger, s),
           if Facts.Commits(sys.ledger, s) then
             O.AfterInsert(sys.outbox, EventOf(L.Attempt(sys.ledger.runs[s.run], s.journalId, s.eventId)))
           else sys.outbox)
  }

  function AfterMove(sys: System, batchSize: int, m: Move): System {
    match m
    case LedgerMove(s) => AfterLedger(sys, s)
    case WorkerMove(p) => sys.(outbox := O.AfterPoll(sys.outbox, batchSize, p))
  }

  function Play(sys: System, batchSize: int, moves: seq<Move>): System {
    if moves == [] then sys else AfterMove(Play(sys, batchSize, moves[..|moves| - 1]), batchSize, moves[|moves| - 1])
  }

  predicate Initial(sys: System) {
    L.Initial(sys.ledger) && sys.outbox == O.EMPTY
  }

  /** The worker's table holds the ledger's events, one row each. */
  ghost predicate SameEvents(w: L.World, rows: seq<O.Row>) {
    && |rows| == |w.log|
    && (forall i :: 0 <= i < |w.log| ==> EventOf(w.log[i]) in O.Events(rows))
    && (forall k :: 0 <= k < |rows| ==> IsCommitted(w, rows[k].event))
  }

  ghost predicate IsCommitted(w: L.World, e: OutboxEvent) {
    exists i :: 0 <= i < |w.log| && EventOf(w.log[i]) == e
  }

  ghost predicate Inv(sys: System) {
    Invariant.Inv(sys.ledger) && O.Inv(sys.outbox) && SameEvents(sys.ledger, sys.outbox.rows)
  }

  lemma EventIdIsDrawn(w: L.World, rows: seq<O.Row>, k: nat)
    requires Invariant.LogSound(w) && SameEvents(w, rows) && k < |rows|
    ensures rows[k].event.id in w.drawn
  {
    assert IsCommitted(w, rows[k].event);
    var i :| 0 <= i < |w.log| && EventOf(w.log[i]) == rows[k].event;
    assert Invariant.CommitSound(w, w.log[i]);
  }

  lemma NewEventIsFresh(w: L.World, s: O.State, e: OutboxEvent)
    requires Invariant.LogSound(w) && SameEvents(w, s.rows) && e.id !in w.drawn
    ensures O.Enabled(s, O.Inserted(e))
  {
    forall k | 0 <= k < |s.rows|
      ensures s.rows[k].event.id != e.id
    {
      EventIdIsDrawn(w, s.rows, k);
    }
  }

  lemma StaysCommitted(w: L.World, w': L.World, e: OutboxEvent)
    requires IsCommitted(w, e) && w.log <= w'.log
    ensures IsCommitted(w', e)
  {
    var i :| 0 <= i < |w.log| && EventOf(w.log[i]) == e;
    assert w'.log[i] == w.log[i];
  }

  lemma SameEventsInsert(w: L.World, w': L.World, c: Commit, rows: seq<O.Row>, p: nat)
    requires SameEvents(w, rows) && w'.log == w.log + [c] && p <= |rows|
    ensures SameEvents(w', D.InsertAt(rows, p, O.Row(EventOf(c), false, None)))
  {
    var row := O.Row(EventOf(c), false, None);
    var rows' := D.InsertAt(rows, p, row);
    O.EventsAfterInsert(rows, p, row);
    assert O.Events(rows')[p] == EventOf(c);
    assert w'.log[|w.log|] == c;
    forall k | 0 <= k < |rows'|
      ensures IsCommitted(w', rows'[k].event)
    {
      if k != p {
        StaysCommitted(w, w', rows[if k < p then k else k - 1].event);
      }
    }
  }

  lemma CommitInserts(w: L.World, w': L.World, s: O.State, c: Commit)
    requires Invariant.LogSound(w) && O.Inv(s) && SameEvents(w, s.rows)
    requires w'.log == w.log + [c] && EventOf(c).id !in w.drawn
    ensures O.Inv(O.AfterInsert(s, EventOf(c))) && SameEvents(w', O.AfterInsert(s, EventOf(c)).rows)
  {
    NewEventIsFresh(w, s, EventOf(c));
    O.InsertKeepsInv(s, EventOf(c));
    SameEventsInsert(w, w', c, s.rows, O.Place(s.rows, EventOf(c).createdAt));
  }

  lemma LedgerMoveKeepsInv(sys: System, s: L.Step)
    requires Inv(sys)
    ensures Inv(AfterLedger(sys, s))
  {
    var w, w' := sys.ledger, L.Apply(sys.ledger, s);
    Invariant.StepKeepsInv(w, s);
    Facts.OnlyWritesCommit(w, s);
    if Facts.Commits(w, s) {
      CommitInserts(w, w', sys.outbox, L.Attempt(w.runs[s.run], s.journalId, s.eventId));
    } else {
      SameEventsStay(w, w', sys.outbox.rows, sys.outbox.rows);
    }
  }

  lemma SameEventsStay(w: L.World, w': L.World, rows: seq<O.Row>, rows': seq<O.Row>)
    requires SameEvents(w, rows) && w'.log == w.log && O.Events(rows') == O.Events(rows)
    ensures SameEvents(w', rows')
  {
    assert |rows'| == |O.Events(rows')| == |rows|;
    forall k | 0 <= k < |rows'|
      ensures IsCommitted(w', rows'[k].event)
    {
      assert rows'[k].event == O.Events(rows')[k] == rows[k].event;
      assert IsCommitted(w, rows[k].event);
    }
  }

  lemma WorkerMoveKeepsInv(sys: System, batchSize: int, p: O.Poll)
    requires Inv(sys)
    ensures Inv(AfterMove(sys, batchSize, WorkerMove(p)))
  {
    O.PollKeepsInv(sys.outbox, batchSize, p);
    O.PollRows(sys.outbox, batchSize, p);
    SameEventsStay(sys.ledger, sys.ledger, sys.outbox.rows, O.AfterPoll(sys.outbox, batchSize, p).rows);
  }

  lemma {:induction false} PlayKeepsInv(sys: System, batchSize: int, moves: seq<Move>)
    requires Initial(sys)
    ensures Inv(Play(sys, batchSize, moves))
    decreases |moves|
  {
    if moves == [] {
      Invariant.InitialInv(sys.ledger);
    } else {
      var n := |moves| - 1;
      PlayKeepsInv(sys, batchSize, moves[..n]);
      match moves[n]
      case LedgerMove(s) => LedgerMoveKeepsInv(Play(sys, batchSize, moves[..n]), s);
      case WorkerMove(p) => WorkerMoveKeepsInv(Play(sys, batchSize, moves[..n]), batchSize, p);
    }
  }

  // --- What consumers see ---------------------------------------------------------------------------

  /** The event tells of this journal: same ids and currency, and the journal's amount to six decimals. */
  ghost predicate TellsOf(e: OutboxEvent, j: JournalEntry) {
    && j.status == JournalPosted && Debits(j.lines) == Credits(j.lines)
    && e.payload.journalId == j.id && e.payload.currency == j.currency
    && e.payload.millionths == Fixed6(Debits(j.lines)) && e.payload.occurredAt == j.bookedAt
    && match e.payload
       case PaymentPayload(id, source, destination, _, _, hold, _, _) =>
         && e.eventType == "payment.posted" && e.aggregateId == id == hold && j.externalRef == "payment:" + id
         && |j.lines| == 2 && j.lines[0].counterparty == Some(source) && j.lines[1].counterparty == Some(destination)
       case LedgerPayload(_, account, _, _, _, _) =>
         e.eventType == "ledger.posted" && e.aggregateId == j.id && |j.lines| == 2 && j.lines[1].counterparty == Some(account)
  }

  lemma CommitTells(c: Commit)
    requires !c.cmd.PostPayment? ==> c.id == c.journalId
    ensures TellsOf(EventOf(c), JournalOf(c))
  {
    LinesBalance(c.cmd);
  }

  /** Every event that was ever delivered tells of a journal that is in the ledger. */
  lemma DeliveredEventsAreCommitted(sys: System, batchSize: int, moves: seq<Move>, q: nat)
    requires Initial(sys) && q < |Play(sys, batchSize, moves).outbox.delivered|
    ensures var end := Play(sys, batchSize, moves);
            exists j :: j in end.ledger.journals && TellsOf(end.outbox.delivered[q], j)
  {
    PlayKeepsInv(sys, batchSize, moves);
    var end := Play(sys, batchSize, moves);
    var e := end.outbox.delivered[q];
    var i := CommitOf(end, e);
    assert Invariant.CommitSound(end.ledger, end.ledger.log[i]);
    CommitTells(end.ledger.log[i]);
    assert end.ledger.journals[i] in end.ledger.journals;
  }

  /** Every event that was ever delivered says what the command of a run that booked said, field by field. */
  lemma DeliveredEventsTellCommands(sys: System, batchSize: int, moves: seq<Move>, q: nat) returns (r: nat, c: Commit)
    requires Initial(sys) && q < |Play(sys, batchSize, moves).outbox.delivered|
    ensures var end := Play(sys, batchSize, moves);
            Rows.Booked(end.ledger, r, c) && Rows.AnnouncedAs(end.outbox.delivered[q], end.ledger.runs[r].cmd, c)
  {
    PlayKeepsInv(sys, batchSize, moves);
    var end := Play(sys, batchSize, moves);
    var i := CommitOf(end, end.outbox.delivered[q]);
    r, c := Rows.RunOfCommit(end.ledger, i);
    Rows.CommitAs(c);
  }

  lemma CommitOf(sys: System, e: OutboxEvent) returns (i: nat)
    requires Inv(sys) && e in O.Events(sys.outbox.rows)
    ensures i < |sys.ledger.log| && EventOf(sys.ledger.log[i]) == e
    ensures sys.ledger.journals == Invariant.JournalsOf(sys.ledger.log)
  {
    var k :| 0 <= k < |sys.outbox.rows| && O.Events(sys.outbox.rows)[k] == e;
    assert IsCommitted(sys.ledger, sys.outbox.rows[k].event);
    i :| 0 <= i < |sys.ledger.log| && EventOf(sys.ledger.log[i]) == e;
  }

  ghost predicate IsDelivered(s: O.State, id: Uuid) {
    exists q :: 0 <= q < |s.delivered| && s.delivered[q].aggregateId == id
  }

  ghost predicate InHistory(w: L.World, id: Uuid) {
    exists i :: 0 <= i < |w.log| && w.log[i].id == id
  }

  predicate IsPaid(w: L.World, id: Uuid) {
    exists k :: 0 <= k < |w.payments| && w.payments[k].id == id
  }

  predicate IsCredited(w: L.World, id: Uuid) {
    exists k :: 0 <= k < |w.journals| && w.journals[k].id == id && w.journals[k].lines != []
                && w.journals[k].lines[0].glCode == "GL_SYSTEM_FUND"
  }

  /** The id is that of a payment, or of the journal of a credit. */
  predicate IsBooked(w: L.World, id: Uuid) {
    IsPaid(w, id) || IsCredited(w, id)
  }

  lemma PaidIsInHistory(w: L.World, id: Uuid)
    requires Invariant.Inv(w) && IsPaid(w, id)
    ensures InHistory(w, id)
  {
    var k :| 0 <= k < |w.payments| && w.payments[k].id == id;
    var i := Facts.PaymentIsCommitted(w.log, w.payments[k]);
    assert w.log[i].id == id;
  }

  lemma CreditedIsInHistory(w: L.World, id: Uuid)
    requires Invariant.Inv(w) && IsCredited(w, id)
    ensures InHistory(w, id)
  {
    var k :| 0 <= k < |w.journals| && w.journals[k].id == id && w.journals[k].lines != []
             && w.journals[k].lines[0].glCode == "GL_SYSTEM_FUND";
    CreditLog(w, k);
  }

  lemma CreditLog(w: L.World, k: nat)
    requires w.journals == Invariant.JournalsOf(w.log) && Invariant.LogSound(w) && k < |w.log|
    requires JournalOf(w.log[k]).lines[0].glCode == "GL_SYSTEM_FUND"
    ensures w.log[k].id == w.journals[k].id
  {
    assert Invariant.CommitSound(w, w.log[k]);
  }

  lemma BookedIsInHistory(w: L.World, id: Uuid)
    requires Invariant.Inv(w)
    ensures IsBooked(w, id) <==> InHistory(w, id)
  {
    if IsPaid(w, id) {
      PaidIsInHistory(w, id);
    }
    if IsCredited(w, id) {
      CreditedIsInHistory(w, id);
    }
    if i :| 0 <= i < |w.log| && w.log[i].id == id {
      HistoryIsBooked(w, i);
    }
  }

  lemma HistoryIsBooked(w: L.World, i: nat)
    requires Invariant.TablesFollowLog(w) && Invariant.LogSound(w) && i < |w.log|
    ensures IsBooked(w, w.log[i].id)
  {
    if w.log[i].cmd.PostPayment? {
      Facts.CommitIsPaid(w.log, i);
      PaidId(w, PaymentOf(w.log[i]));
    } else {
      assert Invariant.CommitSound(w, w.log[i]);
      CreditedId(w, i, JournalOf(w.log[i]));
    }
  }

  lemma PaidId(w: L.World, p: Payment)
    requires p in w.payments
    ensures IsPaid(w, p.id)
  {
    var k :| 0 <= k < |w.payments| && w.payments[k] == p;
  }

  lemma CreditedId(w: L.World, i: nat, j: JournalEntry)
    requires i < |w.journals| && w.journals[i] == j && j.lines != [] && j.lines[0].glCode == "GL_SYSTEM_FUND"
    ensures IsCredited(w, j.id)
  {
  }

  ghost predicate AllPublished(s: O.State) {
    forall i :: 0 <= i < |s.rows| ==> s.rows[i].published
  }

  lemma AggregateOfCommit(w: L.World, i: nat)
    requires Invariant.LogSound(w) && i < |w.log|
    ensures EventOf(w.log[i]).aggregateId == w.log[i].id
  {
    assert Invariant.CommitSound(w, w.log[i]);
  }

  lemma DeliveredIsBooked(sys: System, id: Uuid)
    requires Inv(sys) && IsDelivered(sys.outbox, id)
    ensures IsBooked(sys.ledger, id)
  {
    var q :| 0 <= q < |sys.outbox.delivered| && sys.outbox.delivered[q].aggregateId == id;
    var i := CommitOf(sys, sys.outbox.delivered[q]);
    AggregateOfCommit(sys.ledger, i);
    BookedIsInHistory(sys.ledger, id);
  }

  lemma BookedIsDelivered(sys: System, id: Uuid)
    requires Inv(sys) && AllPublished(sys.outbox) && IsBooked(sys.ledger, id)
    ensures IsDelivered(sys.outbox, id)
  {
    BookedIsInHistory(sys.ledger, id);
    var i :| 0 <= i < |sys.ledger.log| && sys.ledger.log[i].id == id;
    AggregateOfCommit(sys.ledger, i);
    var e := EventOf(sys.ledger.log[i]);
    assert e in O.Events(sys.outbox.rows);
    var k :| 0 <= k < |sys.outbox.rows| && O.Events(sys.outbox.rows)[k] == e;
    assert sys.outbox.rows[k].published;
    var q :| 0 <= q < |sys.outbox.delivered| && sys.outbox.delivered[q] == e;
  }

  /** Consumers only ever hear of booked payments and credits, and once every row is published they have
      heard of all of them. */
  lemma DrainedMeansAllHeard(sys: System, batchSize: int, moves: seq<Move>, id: Uuid)
    requires Initial(sys)
    ensures var end := Play(sys, batchSize, moves);
            && (IsDelivered(end.outbox, id) ==> IsBooked(end.ledger, id))
            && (AllPublished(end.outbox) ==> (IsDelivered(end.outbox, id) <==> IsBooked(end.ledger, id)))
  {
    PlayKeepsInv(sys, batchSize, moves);
    var end := Play(sys, batchSize, moves);
    if IsDelivered(end.outbox, id) {
      DeliveredIsBooked(end, id);
    }
    if AllPublished(end.outbox) && IsBooked(end.ledger, id) {
      BookedIsDelivered(end, id);
    }
  }

  lemma {:induction false} NothingWaits(rows: seq<O.Row>)
    ensures Queues.Waiting(rows) == [] <==> forall i :: 0 <= i < |rows| ==> rows[i].published
    decreases |rows|
  {
    if rows != [] {
      NothingWaits(rows[..|rows| - 1]);
      assert forall i :: 0 <= i < |rows| - 1 ==> rows[..|rows| - 1][i] == rows[i];
    }
  }

  /** Whatever failed before: when commits pause, enough clean rounds that start two minutes after the last
      claim tell the consumers of every booked payment and credit. */
  lemma EverythingIsHeardInTheEnd(sys: System, batchSize: int, moves: seq<Move>, t: int, rounds: seq<O.Step>, id: Uuid)
    requires Initial(sys)
    requires var mid := Play(sys, batchSize, moves);
             && Queues.ClaimsUntil(mid.outbox.rows, t)
             && Queues.CleanRounds(rounds, batchSize, t + 120001)
             && |rounds| * O.Limit(batchSize) >= |Queues.Waiting(mid.outbox.rows)|
    ensures var mid := Play(sys, batchSize, moves);
            IsDelivered(O.Run(mid.outbox, batchSize, rounds), id) <==> IsBooked(mid.ledger, id)
  {
    PlayKeepsInv(sys, batchSize, moves);
    var mid := Play(sys, batchSize, moves);
    var end := System(mid.ledger, O.Run(mid.outbox, batchSize, rounds));
    Queues.ClaimsEndAfterTwoMinutes(mid.outbox, t);
    Queues.DrainedIff(mid.outbox, batchSize, rounds, t + 120001);
    Queues.RunDrains(mid.outbox, batchSize, rounds, t + 120001);
    SameEventsStay(mid.ledger, mid.ledger, mid.outbox.rows, end.outbox.rows);
    HeardIffBooked(end, id);
  }

  lemma HeardIffBooked(end: System, id: Uuid)
    requires Inv(end) && Queues.Waiting(end.outbox.rows) == []
    ensures IsDelivered(end.outbox, id) <==> IsBooked(end.ledger, id)
  {
    NothingWaits(end.outbox.rows);
    if IsDelivered(end.outbox, id) {
      DeliveredIsBooked(end, id);
    }
    if IsBooked(end.ledger, id) {
      BookedIsDelivered(end, id);
    }
  }
}
