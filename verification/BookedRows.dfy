/** What a booked command leaves in the tables, field by field. */
module BookedRows {
  import opened Common
  import opened Decimals
  import opened Entities
  import opened LedgerSteps
  import opened LedgerInvariant
  import opened LedgerTheorems
  import S = LedgerService

  // --- One write ---------------------------------------------------------------------------------------

  /** A write commits exactly when no call of the transaction fails, its ids are new, and a payment's key and id
      are on no row. */
  lemma CommitsIff(w: World, s: Step)
    requires s.Write?
    ensures Commits(w, s) <==>
            && s.run < |w.runs| && w.runs[s.run].phase.Writing?
            && s.journalId !in w.drawn && s.eventId !in w.drawn && s.journalId != s.eventId
            && s.fault == None
            && (w.runs[s.run].cmd.PostPayment? ==>
                  forall i :: 0 <= i < |w.payments| ==>
                    w.payments[i].key != w.runs[s.run].cmd.key && w.payments[i].id != w.runs[s.run].phase.id)
  {
  }

  /** Otherwise nothing is written; a payment whose transaction failed still has its hold to release. */
  lemma FailedWriteLeavesTables(w: World, s: Step)
    requires s.Write? && !Commits(w, s)
    ensures var w' := Apply(w, s);
            && w'.payments == w.payments && w'.journals == w.journals && w'.outbox == w.outbox
            && w'.idempotency == w.idempotency && w'.holds == w.holds && w'.balances == w.balances
            && (Enabled(w, s) ==>
                  w'.runs[s.run].phase == if w.runs[s.run].cmd.PostPayment? then Compensating(w.runs[s.run].phase.id)
                                          else Done(CreditFailed(w.runs[s.run].phase.id)))
  {
  }

  /** The four rows of a payment. */
  lemma PaymentWrites(w: World, s: Step)
    requires Inv(w) && Commits(w, s) && w.runs[s.run].cmd.PostPayment?
    ensures w.runs[s.run].cmd.customer.Some?
    ensures var cmd, id, at, w' := w.runs[s.run].cmd, w.runs[s.run].phase.id, w.runs[s.run].phase.at, Apply(w, s);
            var v := cmd.amount.Value();
            && w'.payments == w.payments +
                 [Payment(id, cmd.key, cmd.source, cmd.destination, v, cmd.currency, Posted, cmd.customer.value, id,
                          s.journalId, at)]
            && w'.journals == w.journals +
                 [JournalEntry(s.journalId, "payment:" + id, at, cmd.initiatedBy, JournalPosted, cmd.currency,
                               [EntryLine("GL_OUT", Some(cmd.source), v, 0.0), EntryLine("GL_IN", Some(cmd.destination), 0.0, v)])]
            && w'.outbox == w.outbox +
                 [OutboxEvent(s.eventId, "payment", id, "payment.posted",
                              PaymentPayload(id, cmd.source, cmd.destination, cmd.currency, Fixed6(v), id, s.journalId, at), at)]
            && w'.idempotency ==
                 (if cmd.key in w.idempotency then w.idempotency
                  else w.idempotency[cmd.key := IdempotencyRecord("PostPayment", PaymentResult(id, "posted"), 200, at)])
  {
    RunIsSound(w, s.run);
  }

  /** The three rows of a credit. */
  lemma CreditWritesRows(w: World, s: Step)
    requires Commits(w, s) && !w.runs[s.run].cmd.PostPayment?
    ensures var cmd, id, at, w' := w.runs[s.run].cmd, w.runs[s.run].phase.id, w.runs[s.run].phase.at, Apply(w, s);
            var v := cmd.amount.Value();
            var creator := if cmd.CreditAccount? then cmd.initiatedBy else "system";
            var origin := if cmd.CreditAccount? then None else Some((cmd.reason, cmd.externalRef));
            var operation := if cmd.CreditAccount? then "PostTopup" else "CreditAccountSystem:" + cmd.reason;
            && w'.payments == w.payments
            && w'.journals == w.journals +
                 [JournalEntry(id, cmd.externalRef, at, creator, JournalPosted, cmd.currency,
                               [EntryLine("GL_SYSTEM_FUND", None, v, 0.0), EntryLine("GL_CUSTOMER_CASH", Some(cmd.account), 0.0, v)])]
            && w'.outbox == w.outbox +
                 [OutboxEvent(s.eventId, "ledger", id, "ledger.posted",
                              LedgerPayload(id, cmd.account, cmd.currency, Fixed6(v), origin, at), at)]
            && w'.idempotency ==
                 (if cmd.key in w.idempotency then w.idempotency
                  else w.idempotency[cmd.key := IdempotencyRecord(operation, CreditResult(id, "posted"), 200, at)])
  {
  }

  // --- Every reachable state ----------------------------------------------------------------------------

  /** Run r booked c. */
  ghost predicate Booked(w: World, r: nat, c: Commit) {
    r < |w.runs| && w.runs[r].phase == Done(Committed(c))
  }

  ghost predicate PaidAs(p: Payment, cmd: Command)
    requires cmd.PostPayment?
  {
    && p.key == cmd.key && p.source == cmd.source && p.destination == cmd.destination
    && p.amount == cmd.amount.Value() && p.currency == cmd.currency && Some(p.customer) == cmd.customer
    && p.status == Posted && p.holdId == p.id
  }

  /** The journal of a booked command, with the ids and the time drawn for it. */
  ghost predicate JournalledAs(j: JournalEntry, cmd: Command, c: Commit) {
    var v := cmd.amount.Value();
    && j.id == c.journalId && j.bookedAt == c.at && j.status == JournalPosted && j.currency == cmd.currency
    && match cmd
       case PostPayment(_, source, destination, _, _, initiatedBy, _) =>
         && j.externalRef == "payment:" + c.id && j.createdBy == initiatedBy
         && j.lines == [EntryLine("GL_OUT", Some(source), v, 0.0), EntryLine("GL_IN", Some(destination), 0.0, v)]
       case CreditAccount(_, account, _, _, initiatedBy, externalRef) =>
         && j.externalRef == externalRef && j.createdBy == initiatedBy
         && j.lines == [EntryLine("GL_SYSTEM_FUND", None, v, 0.0), EntryLine("GL_CUSTOMER_CASH", Some(account), 0.0, v)]
       case CreditAccountSystem(_, account, _, _, externalRef, _) =>
         && j.externalRef == externalRef && j.createdBy == "system"
         && j.lines == [EntryLine("GL_SYSTEM_FUND", None, v, 0.0), EntryLine("GL_CUSTOMER_CASH", Some(account), 0.0, v)]
  }

  /** The event of a booked command. */
  ghost predicate AnnouncedAs(e: OutboxEvent, cmd: Command, c: Commit) {
    var millionths := Fixed6(cmd.amount.Value());
    && e.id == c.eventId && e.createdAt == c.at
    && match cmd
       case PostPayment(_, source, destination, currency, _, _, _) =>
         && e.aggregateType == "payment" && e.aggregateId == c.id && e.eventType == "payment.posted"
         && e.payload == PaymentPayload(c.id, source, destination, currency, millionths, c.id, c.journalId, c.at)
       case CreditAccount(_, account, currency, _, _, _) =>
         && e.aggregateType == "ledger" && e.aggregateId == c.journalId && e.eventType == "ledger.posted"
         && e.payload == LedgerPayload(c.journalId, account, currency, millionths, None, c.at)
       case CreditAccountSystem(_, account, currency, _, externalRef, reason) =>
         && e.aggregateType == "ledger" && e.aggregateId == c.journalId && e.eventType == "ledger.posted"
         && e.payload == LedgerPayload(c.journalId, account, currency, millionths, Some((reason, externalRef)), c.at)
  }

  ghost predicate RecordedAs(rec: IdempotencyRecord, cmd: Command, c: Commit) {
    && rec.statusCode == 200 && rec.createdAt == c.at
    && match cmd
       case PostPayment(_, _, _, _, _, _, _) =>
         rec.operation == "PostPayment" && rec.response == PaymentResult(c.id, "posted")
       case CreditAccount(_, _, _, _, _, _) =>
         rec.operation == "PostTopup" && rec.response == CreditResult(c.journalId, "posted")
       case CreditAccountSystem(_, _, _, _, _, reason) =>
         rec.operation == "CreditAccountSystem:" + reason && rec.response == CreditResult(c.journalId, "posted")
  }

  lemma CommitAs(c: Commit)
    ensures JournalledAs(JournalOf(c), c.cmd, c) && AnnouncedAs(EventOf(c), c.cmd, c) && RecordedAs(RecordOf(c), c.cmd, c)
    ensures c.cmd.PostPayment? && c.cmd.customer.Some? ==>
              PaidAs(PaymentOf(c), c.cmd) && PaymentOf(c).id == c.id && PaymentOf(c).journalId == c.journalId
              && PaymentOf(c).createdAt == c.at
  {
  }

  lemma RecordOfFirst(w: World, i: nat)
    requires w.idempotency == RecordsOf(w.log) && i < |w.log|
    ensures var c := w.log[i];
            && c.cmd.key in w.idempotency
            && ((forall k :: 0 <= k < i ==> w.log[k].cmd.key != c.cmd.key) ==> RecordedAs(w.idempotency[c.cmd.key], c.cmd, c))
  {
    KeyIsRecorded(w.log, i);
    var n := FirstUse(w.log, w.log[i].cmd.key);
    CommitAs(w.log[n]);
  }

  lemma PaymentOfCommit(w: World, i: nat)
    requires w.payments == PaymentsOf(w.log) && i < |w.log| && CommitSound(w, w.log[i]) && w.log[i].cmd.PostPayment?
    ensures HasPaymentAs(w, w.log[i].cmd, w.log[i])
  {
    CommitIsPaid(w.log, i);
    CommitAs(w.log[i]);
  }

  lemma IndexOfBooked(w: World, r: nat, c: Commit) returns (i: nat)
    requires Inv(w) && Booked(w, r, c)
    ensures i < |w.log| && w.log[i] == c && c.cmd == w.runs[r].cmd && CommitSound(w, c)
  {
    RunIsSound(w, r);
    i :| 0 <= i < |w.log| && w.log[i] == c;
    assert CommitSound(w, w.log[i]);
  }

  /** The rows of a run that booked say what its command said. */
  lemma BookedRunHasItsRows(w: World, r: nat, c: Commit) returns (i: nat)
    requires Reachable(w) && Booked(w, r, c)
    ensures i < |w.log| == |w.journals| == |w.outbox| && w.log[i] == c
    ensures JournalledAs(w.journals[i], w.runs[r].cmd, c) && AnnouncedAs(w.outbox[i], w.runs[r].cmd, c)
    ensures w.runs[r].cmd.key in w.idempotency
    ensures (forall k :: 0 <= k < i ==> w.log[k].cmd.key != w.runs[r].cmd.key) ==>
              RecordedAs(w.idempotency[w.runs[r].cmd.key], w.runs[r].cmd, c)
    ensures w.runs[r].cmd.PostPayment? ==> HasPaymentAs(w, w.runs[r].cmd, c)
  {
    ReachableInv(w);
    i := IndexOfBooked(w, r, c);
    CommitAs(c);
    RecordOfFirst(w, i);
    if c.cmd.PostPayment? {
      PaymentOfCommit(w, i);
    }
  }

  ghost predicate HasPaymentAs(w: World, cmd: Command, c: Commit)
    requires cmd.PostPayment?
  {
    exists p :: p in w.payments && PaidAs(p, cmd) && p.id == c.id && p.journalId == c.journalId && p.createdAt == c.at
  }

  /** Every payment was booked by a run whose command it repeats: key, accounts, amount, currency and customer. */
  lemma PaymentHasItsRun(w: World, p: Payment) returns (r: nat, c: Commit)
    requires Reachable(w) && p in w.payments
    ensures Booked(w, r, c) && w.runs[r].cmd.PostPayment? && PaidAs(p, w.runs[r].cmd)
    ensures p.id == c.id && p.journalId == c.journalId && p.createdAt == c.at
  {
    ReachableInv(w);
    var i := PaymentIsCommitted(w.log, p);
    r, c := RunOfCommit(w, i);
    CommitAs(c);
  }

  lemma RunOfCommit(w: World, i: nat) returns (r: nat, c: Commit)
    requires Inv(w) && i < |w.log|
    ensures c == w.log[i] && Booked(w, r, c) && w.runs[r].cmd == c.cmd
    ensures c.cmd.PostPayment? ==> c.cmd.customer.Some?
  {
    c := w.log[i];
    assert HasRun(w, w.log[i]) && CommitSound(w, w.log[i]);
    r :| CommittedBy(w, c, r);
    RunIsSound(w, r);
  }

  /** Every journal and every event is that of a run that booked. */
  lemma RowsHaveTheirRun(w: World, i: nat) returns (r: nat, c: Commit)
    requires Reachable(w) && i < |w.journals|
    ensures Booked(w, r, c) && i < |w.outbox|
    ensures JournalledAs(w.journals[i], w.runs[r].cmd, c) && AnnouncedAs(w.outbox[i], w.runs[r].cmd, c)
  {
    ReachableInv(w);
    r, c := RunOfCommit(w, i);
    CommitAs(c);
  }

  // --- What callers are told -------------------------------------------------------------------------------

  /** A caller gets a result exactly if its run booked or replayed: the id of its payment or of its journal. */
  lemma AnswerIff(w: World, r: nat)
    requires Reachable(w) && r < |w.runs|
    ensures var run := w.runs[r];
            && (S.Answer(run).Some? <==> run.phase.Done? && (run.phase.outcome.Committed? || run.phase.outcome.Replayed?))
            && (run.phase.Done? && run.phase.outcome.Committed? ==>
                  S.Answer(run) == Some(if run.cmd.PostPayment? then PaymentResult(run.phase.outcome.commit.id, "posted")
                                        else CreditResult(run.phase.outcome.commit.journalId, "posted")))
            && (run.phase.Done? && run.phase.outcome.Replayed? ==> S.Answer(run) == Some(run.phase.outcome.response))
  {
    ReachableInv(w);
    RunIsSound(w, r);
  }
}
