/** Whole calls that nothing disturbs: what they leave behind. */
module LedgerCalls {
  import opened Common
  import opened Decimals
  import opened Entities
  import opened LedgerSteps
  import opened LedgerTheorems
  import opened LedgerService

  function WithRun(w: World, cmd: Command, phase: Phase): World {
    w.(runs := w.runs + [Run(cmd, phase)])
  }

  /** The checks before the write pass, and the ids are new. */
  predicate PassesChecks(w: World, cmd: Command, env: Environment) {
    && env.others == [] && Exact(cmd.amount) && env.found == Absent && env.verdict == Accepted
    && env.id !in w.drawn && !HasPaymentId(w.payments, env.id) && env.journalId !in w.drawn && env.eventId !in w.drawn
    && env.id != env.journalId && env.id != env.eventId && env.journalId != env.eventId
  }

  predicate CanPay(w: World, cmd: Command, env: Environment) {
    && cmd.PostPayment? && PassesChecks(w, cmd, env)
    && cmd.customer.Some? && env.reply == Reserved && CanReserve(w, cmd.source, cmd.amount.Value())
  }

  lemma Alone(w: World, r: nat)
    ensures Exec(w, Foreign([], r)) == w
  {
  }

  /** A call nobody disturbs. */
  lemma QuietTurn(w: World, r: nat, turns: seq<Turn>, k: nat, next: World)
    requires k < |turns| && r < |w.runs| && turns[k].others == [] && Due(w.runs[r], turns[k].call)
    requires next == Apply(w, turns[k].call)
    ensures Play(w, r, turns, k) == Play(next, r, turns, k + 1)
  {
    Alone(w, r);
  }

  lemma QuietRead(w: World, cmd: Command, env: Environment)
    requires PassesChecks(w, cmd, env)
    ensures Apply(WithRun(w, cmd, Reading), Read(|w.runs|, env.found)) == WithRun(w, cmd, Validating)
  {
    var w1 := WithRun(w, cmd, Reading);
    assert w1.runs[|w.runs| := Run(cmd, Validating)] == w.runs + [Run(cmd, Validating)];
  }

  lemma QuietValidate(w: World, cmd: Command, env: Environment)
    requires PassesChecks(w, cmd, env) && (cmd.PostPayment? ==> cmd.customer.Some?)
    ensures Apply(WithRun(w, cmd, Validating), Validate(|w.runs|, env.verdict, env.id, env.at)) ==
            WithRun(w.(drawn := w.drawn + {env.id}), cmd,
                    if cmd.PostPayment? then Reserving(env.id, env.at) else Writing(env.id, env.at))
  {
    var w2 := WithRun(w, cmd, Validating);
    var phase := if cmd.PostPayment? then Reserving(env.id, env.at) else Writing(env.id, env.at);
    assert w2.runs[|w.runs| := Run(cmd, phase)] == w.runs + [Run(cmd, phase)];
  }

  /** After the checks the id is drawn and the hold or the write is next. */
  lemma QuietChecks(w: World, cmd: Command, env: Environment)
    requires PassesChecks(w, cmd, env) && (cmd.PostPayment? ==> cmd.customer.Some?)
    ensures Operation(w, cmd, env) ==
            Play(WithRun(w.(drawn := w.drawn + {env.id}), cmd,
                         if cmd.PostPayment? then Reserving(env.id, env.at) else Writing(env.id, env.at)),
                 |w.runs|, TurnsOf(cmd, env, |w.runs|), 2)
  {
    var r := |w.runs|;
    var turns := TurnsOf(cmd, env, r);
    assert Apply(w, Begin(cmd)) == WithRun(w, cmd, Reading);
    QuietRead(w, cmd, env);
    QuietTurn(WithRun(w, cmd, Reading), r, turns, 0, WithRun(w, cmd, Validating));
    QuietValidate(w, cmd, env);
    QuietTurn(WithRun(w, cmd, Validating), r, turns, 1,
              WithRun(w.(drawn := w.drawn + {env.id}), cmd,
                      if cmd.PostPayment? then Reserving(env.id, env.at) else Writing(env.id, env.at)));
  }

  /** Where the transaction starts: the hold is taken and the id drawn. */
  function WithHold(w: World, cmd: Command, env: Environment): World
    requires CanPay(w, cmd, env)
  {
    TakeHold(w.(drawn := w.drawn + {env.id}), env.id, cmd.source, cmd.amount.Value())
  }

  lemma ReserveTakesHold(w: World, cmd: Command, env: Environment)
    requires CanPay(w, cmd, env)
    ensures Apply(WithRun(w.(drawn := w.drawn + {env.id}), cmd, Reserving(env.id, env.at)), Reserve(|w.runs|, Reserved)) ==
            WithRun(WithHold(w, cmd, env), cmd, Writing(env.id, env.at))
  {
    var w3 := WithRun(w.(drawn := w.drawn + {env.id}), cmd, Reserving(env.id, env.at));
    assert w3.runs[|w.runs| := Run(cmd, Writing(env.id, env.at))] == w.runs + [Run(cmd, Writing(env.id, env.at))];
  }

  /** A payment that gets its hold comes to its write. */
  lemma QuietPayment(w: World, cmd: Command, env: Environment)
    requires CanPay(w, cmd, env)
    ensures Operation(w, cmd, env) ==
            Play(WithRun(WithHold(w, cmd, env), cmd, Writing(env.id, env.at)), |w.runs|, PaymentTurns(env, |w.runs|), 3)
  {
    QuietChecks(w, cmd, env);
    ReserveTakesHold(w, cmd, env);
    QuietTurn(WithRun(w.(drawn := w.drawn + {env.id}), cmd, Reserving(env.id, env.at)), |w.runs|,
              PaymentTurns(env, |w.runs|), 2, WithRun(WithHold(w, cmd, env), cmd, Writing(env.id, env.at)));
  }

  function AfterQuietWrite(w: World, cmd: Command, id: Uuid, at: int, journalId: Uuid, eventId: Uuid,
                           fault: Option<WriteCall>): World {
    var c := Attempt(Run(cmd, Writing(id, at)), journalId, eventId);
    if WriteFails(w, cmd, id, fault)
    then WithRun(w, cmd, if cmd.PostPayment? then Compensating(id) else Done(CreditFailed(id)))
    else WithRun(AddRows(w, c), cmd, Done(Committed(c)))
  }

  /** The write of a run that just started, on the tables of w. */
  lemma WriteOf(w: World, cmd: Command, id: Uuid, at: int, journalId: Uuid, eventId: Uuid, fault: Option<WriteCall>)
    requires id in w.drawn && journalId !in w.drawn && eventId !in w.drawn && journalId != eventId
    ensures Apply(WithRun(w, cmd, Writing(id, at)), Write(|w.runs|, journalId, eventId, fault)) ==
            AfterQuietWrite(w, cmd, id, at, journalId, eventId, fault)
  {
    var w' := WithRun(w, cmd, Writing(id, at));
    var phase := if WriteFails(w, cmd, id, fault)
                 then if cmd.PostPayment? then Compensating(id) else Done(CreditFailed(id))
                 else Done(Committed(Attempt(Run(cmd, Writing(id, at)), journalId, eventId)));
    assert w'.runs[|w.runs| := Run(cmd, phase)] == w.runs + [Run(cmd, phase)];
  }

  /** The write of a payment, after which only a compensation can follow. */
  lemma QuietPaymentWrite(w: World, cmd: Command, env: Environment)
    requires CanPay(w, cmd, env)
    ensures Operation(w, cmd, env) ==
            Play(AfterQuietWrite(WithHold(w, cmd, env), cmd, env.id, env.at, env.journalId, env.eventId, env.fault),
                 |w.runs|, PaymentTurns(env, |w.runs|), 4)
  {
    QuietPayment(w, cmd, env);
    WriteOf(WithHold(w, cmd, env), cmd, env.id, env.at, env.journalId, env.eventId, env.fault);
    QuietTurn(WithRun(WithHold(w, cmd, env), cmd, Writing(env.id, env.at)), |w.runs|, PaymentTurns(env, |w.runs|), 3,
              AfterQuietWrite(WithHold(w, cmd, env), cmd, env.id, env.at, env.journalId, env.eventId, env.fault));
  }

  /** A payment under a new key with funds available is booked: its rows, its hold and nothing else. */
  lemma PaymentIsBooked(w: World, cmd: Command, env: Environment)
    requires CanPay(w, cmd, env) && !HasPaymentKey(w.payments, cmd.key) && env.fault == None
    ensures var c := Commit(cmd, env.id, env.journalId, env.eventId, env.at);
            Operation(w, cmd, env) == WithRun(AddRows(WithHold(w, cmd, env), c), cmd, Done(Committed(c)))
  {
    QuietPaymentWrite(w, cmd, env);
    var c := Commit(cmd, env.id, env.journalId, env.eventId, env.at);
    PlayStops(WithRun(AddRows(WithHold(w, cmd, env), c), cmd, Done(Committed(c))), |w.runs|, PaymentTurns(env, |w.runs|), 4);
  }

  /** Field by field: what the payment's call left in the tables and at Accounts, and what it was answered. */
  lemma PaymentLeaves(w: World, cmd: Command, env: Environment)
    requires CanPay(w, cmd, env) && !HasPaymentKey(w.payments, cmd.key) && env.fault == None
    ensures var w', v := Operation(w, cmd, env), cmd.amount.Value();
            && w'.payments == w.payments +
                 [Payment(env.id, cmd.key, cmd.source, cmd.destination, v, cmd.currency, Posted, cmd.customer.value,
                          env.id, env.journalId, env.at)]
            && w'.journals == w.journals +
                 [JournalEntry(env.journalId, "payment:" + env.id, env.at, cmd.initiatedBy, JournalPosted, cmd.currency,
                               [EntryLine("GL_OUT", Some(cmd.source), v, 0.0), EntryLine("GL_IN", Some(cmd.destination), 0.0, v)])]
            && w'.outbox == w.outbox +
                 [OutboxEvent(env.eventId, "payment", env.id, "payment.posted",
                              PaymentPayload(env.id, cmd.source, cmd.destination, cmd.currency, Fixed6(v), env.id,
                                             env.journalId, env.at), env.at)]
            && w'.balances == w.balances[cmd.source := Balance(w.balances[cmd.source].available - v, w.balances[cmd.source].hold + v)]
            && w'.holds == w.holds[env.id := Hold(cmd.source, v)]
            && |w'.runs| == |w.runs| + 1 && Answer(w'.runs[|w.runs|]) == Some(PaymentResult(env.id, "posted"))
  {
    PaymentIsBooked(w, cmd, env);
  }

  lemma ReleaseOf(w: World, cmd: Command, id: Uuid)
    requires cmd.PostPayment? && CanReserve(w, cmd.source, cmd.amount.Value())
    requires id !in w.holds && w.balances[cmd.source].hold >= 0.0
    ensures Apply(WithRun(TakeHold(w, id, cmd.source, cmd.amount.Value()), cmd, Compensating(id)), Release(|w.runs|, true)) ==
            WithRun(w, cmd, Done(Compensated(id, true)))
  {
    var amount := cmd.amount.Value();
    var held := TakeHold(w, id, cmd.source, amount);
    var back := DropHold(held, id, cmd.source, amount);
    assert back.balances == w.balances && back.holds == w.holds;
    var done := Run(cmd, Done(Compensated(id, true)));
    assert WithRun(held, cmd, Compensating(id)).runs[|w.runs| := done] == w.runs + [done];
  }

  /** If the transaction fails and the release arrives, tables, balances and holds are as before the call. */
  lemma FailedPaymentIsUndone(w: World, cmd: Command, env: Environment)
    requires CanPay(w, cmd, env) && (HasPaymentKey(w.payments, cmd.key) || env.fault.Some?) && env.released
    requires env.id !in w.holds && w.balances[cmd.source].hold >= 0.0
    ensures Operation(w, cmd, env) ==
            WithRun(w.(drawn := w.drawn + {env.id}), cmd, Done(Compensated(env.id, true)))
  {
    var r := |w.runs|;
    var turns, undone := PaymentTurns(env, r), WithRun(w.(drawn := w.drawn + {env.id}), cmd, Done(Compensated(env.id, true)));
    QuietPaymentWrite(w, cmd, env);
    ReleaseOf(w.(drawn := w.drawn + {env.id}), cmd, env.id);
    QuietTurn(WithRun(WithHold(w, cmd, env), cmd, Compensating(env.id)), r, turns, 4, undone);
    PlayStops(undone, r, turns, 5);
  }

  /** A credit is booked whenever its checks pass, even if its key is already recorded. */
  lemma CreditIsBooked(w: World, cmd: Command, env: Environment)
    requires !cmd.PostPayment? && PassesChecks(w, cmd, env) && env.fault == None
    ensures var c := Commit(cmd, env.id, env.id, env.eventId, env.at);
            Operation(w, cmd, env) == WithRun(AddRows(w.(drawn := w.drawn + {env.id}), c), cmd, Done(Committed(c)))
  {
    var r := |w.runs|;
    var drawn := w.(drawn := w.drawn + {env.id});
    var booked := AfterQuietWrite(drawn, cmd, env.id, env.at, env.journalId, env.eventId, env.fault);
    QuietChecks(w, cmd, env);
    WriteOf(drawn, cmd, env.id, env.at, env.journalId, env.eventId, env.fault);
    QuietTurn(WithRun(drawn, cmd, Writing(env.id, env.at)), r, CreditTurns(env, r), 2, booked);
    PlayStops(booked, r, CreditTurns(env, r), 3);
  }

  /** Field by field: what the credit's call left in the tables, and what it was answered. */
  lemma CreditLeaves(w: World, cmd: Command, env: Environment)
    requires !cmd.PostPayment? && PassesChecks(w, cmd, env) && env.fault == None
    ensures var w', v := Operation(w, cmd, env), cmd.amount.Value();
            var creator := if cmd.CreditAccount? then cmd.initiatedBy else "system";
            var origin := if cmd.CreditAccount? then None else Some((cmd.reason, cmd.externalRef));
            && w'.payments == w.payments && w'.balances == w.balances && w'.holds == w.holds
            && w'.journals == w.journals +
                 [JournalEntry(env.id, cmd.externalRef, env.at, creator, JournalPosted, cmd.currency,
                               [EntryLine("GL_SYSTEM_FUND", None, v, 0.0), EntryLine("GL_CUSTOMER_CASH", Some(cmd.account), 0.0, v)])]
            && w'.outbox == w.outbox +
                 [OutboxEvent(env.eventId, "ledger", env.id, "ledger.posted",
                              LedgerPayload(env.id, cmd.account, cmd.currency, Fixed6(v), origin, env.at), env.at)]
            && |w'.runs| == |w.runs| + 1 && Answer(w'.runs[|w.runs|]) == Some(CreditResult(env.id, "posted"))
  {
    CreditIsBooked(w, cmd, env);
  }

  // --- Operations are runs ------------------------------------------------------------------------------------

  /** The steps of one operation and of the others meanwhile. */
  function StepsOf(w: World, cmd: Command, env: Environment): seq<Step> {
    [Begin(cmd)] + StepsTaken(Apply(w, Begin(cmd)), |w.runs|, TurnsOf(cmd, env, |w.runs|), 0)
  }

  lemma OperationIsExec(w: World, cmd: Command, env: Environment)
    ensures Operation(w, cmd, env) == Exec(w, StepsOf(w, cmd, env))
  {
    var begun, turns := Apply(w, Begin(cmd)), TurnsOf(cmd, env, |w.runs|);
    PlayIsExec(begun, |w.runs|, turns, 0);
    ExecOne(w, Begin(cmd));
    ExecConcat(w, [Begin(cmd)], StepsTaken(begun, |w.runs|, turns, 0));
  }

  lemma MoreSteps(w: World, steps: seq<Step>)
    requires Reachable(w)
    ensures Reachable(Exec(w, steps))
  {
    var w0, before :| Initial(w0) && w == Exec(w0, before);
    ExecConcat(w0, before, steps);
  }

  /** An operation on a reachable state leads to a reachable state, so all that holds of those holds of the
      service's tables after any sequence of its operations. */
  lemma OperationStaysReachable(w: World, cmd: Command, env: Environment)
    requires Reachable(w)
    ensures Reachable(Operation(w, cmd, env))
  {
    OperationIsExec(w, cmd, env);
    MoreSteps(w, StepsOf(w, cmd, env));
  }

  // --- A record that is another operation's --------------------------------------------------------------------

  /** The rows a credit leaves in empty tables. */
  lemma CreditAloneLeaves(w0: World, credit: Command, env: Environment)
    requires Initial(w0) && !credit.PostPayment? && PassesChecks(w0, credit, env) && env.fault == None
    ensures var w, c := Operation(w0, credit, env), Commit(credit, env.id, env.id, env.eventId, env.at);
            w.payments == [] && w.idempotency == map[credit.key := RecordOf(c)]
  {
    CreditIsBooked(w0, credit, env);
  }

  /** The rows a payment adds under a recorded key. */
  lemma PaymentBesideRecordLeaves(w: World, pay: Command, env: Environment)
    requires CanPay(w, pay, env) && env.fault == None && w.payments == [] && pay.key in w.idempotency
    ensures var w', c := Operation(w, pay, env), Commit(pay, env.id, env.journalId, env.eventId, env.at);
            w'.payments == [PaymentOf(c)] && w'.idempotency == w.idempotency
  {
    PaymentIsBooked(w, pay, env);
  }

  lemma StartIsReachable(w0: World)
    requires Initial(w0)
    ensures Reachable(w0)
  {
    assert Exec(w0, []) == w0;
  }

  /** A payment whose read missed the record of a credit is booked beside it: the key then holds the credit's
      result, and the next call of the payment is answered with a payment id of nil. */
  lemma PaymentMeetsCreditRecord(w0: World, credit: Command, first: Environment, pay: Command, second: Environment)
    requires Initial(w0) && !credit.PostPayment? && PassesChecks(w0, credit, first) && first.fault == None
    requires credit.key == pay.key && second.fault == None && CanPay(Operation(w0, credit, first), pay, second)
    ensures var w := Operation(Operation(w0, credit, first), pay, second);
            && Reachable(w) && |w.payments| == 1 && w.payments[0].key == pay.key && w.payments[0].id == second.id
            && pay.key in w.idempotency && w.idempotency[pay.key].response == CreditResult(first.id, "posted")
            && Decode(pay, w.idempotency[pay.key].response) == PaymentResult(NIL_UUID, "posted")
  {
    CreditAloneLeaves(w0, credit, first);
    PaymentBesideRecordLeaves(Operation(w0, credit, first), pay, second);
    StartIsReachable(w0);
    OperationStaysReachable(w0, credit, first);
    OperationStaysReachable(Operation(w0, credit, first), pay, second);
  }
}
