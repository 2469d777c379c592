/** The service over its tables: each call of each operation updates them in place. */
module LedgerService {
  import opened Common
  import opened Decimals
  import opened Entities
  import opened LedgerRules
  import opened LedgerSteps
  import opened LedgerTheorems

  /** What the environment answers to the calls of one operation, and what other runs do before each. */
  datatype Environment = Environment(found: ReadReply, verdict: Verdict, id: Uuid, at: int, reply: ReserveReply,
                                     journalId: Uuid, eventId: Uuid, fault: Option<WriteCall>, released: bool,
                                     others: seq<seq<Step>>)
  {
    function Meanwhile(i: nat): seq<Step> {
      if i < |others| then others[i] else []
    }
  }

  datatype Tables = Tables(payments: seq<Payment>, journals: seq<JournalEntry>, outbox: seq<OutboxEvent>,
                           idempotency: map<string, IdempotencyRecord>)

  function WithStatus(payments: seq<Payment>, id: Uuid, status: PaymentStatus): seq<Payment> {
    seq(|payments|, i requires 0 <= i < |payments| =>
      if payments[i].id == id then payments[i].(status := status) else payments[i])
  }

  lemma StatusOfNewRow(payments: seq<Payment>, p: Payment, status: PaymentStatus)
    requires forall i :: 0 <= i < |payments| ==> payments[i].id != p.id
    ensures WithStatus(payments + [p], p.id, status) == payments + [p.(status := status)]
  {
  }

  lemma ConcatLast(xs: seq<Step>, ys: seq<Step>)
    requires ys != []
    ensures var zs := xs + ys;
            zs != [] && zs[..|zs| - 1] == xs + ys[..|ys| - 1] && zs[|zs| - 1] == ys[|ys| - 1]
  {
  }

  lemma {:induction false} ExecConcat(w: World, xs: seq<Step>, ys: seq<Step>)
    ensures Exec(w, xs + ys) == Exec(Exec(w, xs), ys)
    decreases |ys|
  {
    if ys == [] {
      assert xs + ys == xs;
    } else {
      ExecConcat(w, xs, ys[..|ys| - 1]);
      ConcatLast(xs, ys);
    }
  }

  lemma ExecOne(w: World, s: Step)
    ensures Exec(w, [s]) == Apply(w, s)
  {
    assert [s][..0] == [];
    assert Exec(w, [s][..0]) == w;
  }

  /** The steps that are not this run's. */
  function Foreign(steps: seq<Step>, r: nat): seq<Step> {
    if steps == [] then []
    else
      var n := |steps| - 1;
      var earlier := Foreign(steps[..n], r);
      if StepOf(steps[n], r) then earlier else earlier + [steps[n]]
  }

  /** All of them, if none is the run's; and never one that is. */
  lemma {:induction false} ForeignIs(steps: seq<Step>, r: nat)
    ensures (forall i :: 0 <= i < |steps| ==> !StepOf(steps[i], r)) ==> Foreign(steps, r) == steps
    ensures forall s :: s in Foreign(steps, r) <==> s in steps && !StepOf(s, r)
    decreases |steps|
  {
    if steps != [] {
      var n := |steps| - 1;
      ForeignIs(steps[..n], r);
      assert forall s :: s in steps <==> s in steps[..n] || s == steps[n];
      assert steps[..n] + [steps[n]] == steps;
    }
  }

  lemma ForeignAppend(w: World, steps: seq<Step>, i: nat, r: nat)
    requires i < |steps|
    ensures var before := Exec(w, Foreign(steps[..i], r));
            Exec(w, Foreign(steps[..i + 1], r)) == if StepOf(steps[i], r) then before else Apply(before, steps[i])
  {
    assert steps[..i + 1][..i] == steps[..i];
    if !StepOf(steps[i], r) {
      ExecAppend(w, Foreign(steps[..i], r), steps[i]);
    } else {
      assert Foreign(steps[..i + 1], r) == Foreign(steps[..i], r);
    }
  }

  /** What others do, then a call of the run. */
  datatype Turn = Turn(others: seq<Step>, call: Step)

  /** The run has got to this call. */
  predicate Due(run: Run, s: Step) {
    match s
    case Read(_, _) => run.phase.Reading?
    case Validate(_, _, _, _) => run.phase.Validating?
    case Reserve(_, _) => run.phase.Reserving?
    case Write(_, _, _, _) => run.phase.Writing?
    case Release(_, _) => run.phase.Compensating?
    case _ => false
  }

  /** The turns of run r from the k-th on, up to where it ends. */
  function Play(w: World, r: nat, turns: seq<Turn>, k: nat): World
    decreases |turns| - k
  {
    if k >= |turns| || r >= |w.runs| || !Due(w.runs[r], turns[k].call) then w
    else Play(Apply(Exec(w, Foreign(turns[k].others, r)), turns[k].call), r, turns, k + 1)
  }

  /** The steps those turns take. */
  function StepsTaken(w: World, r: nat, turns: seq<Turn>, k: nat): seq<Step>
    decreases |turns| - k
  {
    if k >= |turns| || r >= |w.runs| || !Due(w.runs[r], turns[k].call) then []
    else
      var others := Foreign(turns[k].others, r);
      (others + [turns[k].call]) + StepsTaken(Apply(Exec(w, others), turns[k].call), r, turns, k + 1)
  }

  /** A run's turns are an interleaving like any other. */
  lemma {:induction false} PlayIsExec(w: World, r: nat, turns: seq<Turn>, k: nat)
    ensures Play(w, r, turns, k) == Exec(w, StepsTaken(w, r, turns, k))
    decreases |turns| - k
  {
    if k < |turns| && r < |w.runs| && Due(w.runs[r], turns[k].call) {
      var others := Foreign(turns[k].others, r);
      var next := Apply(Exec(w, others), turns[k].call);
      PlayIsExec(next, r, turns, k + 1);
      ExecAppend(w, others, turns[k].call);
      ExecConcat(w, others + [turns[k].call], StepsTaken(next, r, turns, k + 1));
    }
  }

  lemma PlayTurn(w: World, r: nat, turns: seq<Turn>, k: nat, next: World)
    requires k < |turns| && r < |w.runs| && Due(w.runs[r], turns[k].call)
    requires next == Apply(Exec(w, Foreign(turns[k].others, r)), turns[k].call)
    ensures Play(w, r, turns, k) == Play(next, r, turns, k + 1)
  {
  }

  lemma PlayStops(w: World, r: nat, turns: seq<Turn>, k: nat)
    requires r < |w.runs| && (k < |turns| ==> !Due(w.runs[r], turns[k].call))
    ensures Play(w, r, turns, k) == w
  {
  }

  function PaymentTurns(env: Environment, r: nat): seq<Turn> {
    [Turn(env.Meanwhile(0), Read(r, env.found)),
     Turn(env.Meanwhile(1), Validate(r, env.verdict, env.id, env.at)),
     Turn(env.Meanwhile(2), Reserve(r, env.reply)),
     Turn(env.Meanwhile(3), Write(r, env.journalId, env.eventId, env.fault)),
     Turn(env.Meanwhile(4), Release(r, env.released))]
  }

  function CreditTurns(env: Environment, r: nat): seq<Turn> {
    [Turn(env.Meanwhile(0), Read(r, env.found)),
     Turn(env.Meanwhile(1), Validate(r, env.verdict, env.id, env.at)),
     Turn(env.Meanwhile(2), Write(r, env.journalId, env.eventId, env.fault))]
  }

  function TurnsOf(cmd: Command, env: Environment, r: nat): seq<Turn> {
    if cmd.PostPayment? then PaymentTurns(env, r) else CreditTurns(env, r)
  }

  /** One operation as steps of a new run, among the steps of others. */
  function Operation(w: World, cmd: Command, env: Environment): World {
    Play(Apply(w, Begin(cmd)), |w.runs|, TurnsOf(cmd, env, |w.runs|), 0)
  }

  /** What the idempotency read says. */
  datatype ReadResult = ReadFailed | Missing | Cached(response: Response)

  /** What the write says; an interrupted one says nothing and changes nothing. */
  datatype WriteResult = Booked(response: Response) | RolledBack | Interrupted

  /** What a finished run answered its caller: a result, or an error. */
  function Answer(run: Run): Option<Response> {
    match run.phase
    case Done(Replayed(response)) => Some(response)
    case Done(Committed(c)) => Some(ResponseOf(c))
    case _ => None
  }

  // --- What each call tells its caller -----------------------------------------------------------------

  ghost predicate KeepsCommand(w: World, w': World, r: nat) {
    r < |w.runs| && r < |w'.runs| && w'.runs[r].cmd == w.runs[r].cmd
  }

  ghost predicate SaysRead(w: World, r: nat, result: ReadResult) {
    r < |w.runs| &&
    match result
    case Cached(response) => w.runs[r].phase == Done(Replayed(response))
    case Missing => w.runs[r].phase.Validating?
    case ReadFailed => w.runs[r].phase.Reading? || EndedInError(w.runs[r])
  }

  lemma ReadOutcome(w: World, r: nat, found: ReadReply)
    requires r < |w.runs| && w.runs[r].phase.Reading?
    ensures var w', cmd := Apply(w, Read(r, found)), w.runs[r].cmd;
            if found == Found && cmd.key !in w.idempotency then w' == w
            else Enabled(w, Read(r, found)) && w' == AfterRead(w, r, found)
  {
  }

  /** Unless the read found no record, the run ends there with what it said. */
  lemma ReadStops(w: World, r: nat, turns: seq<Turn>, result: ReadResult)
    requires SaysRead(w, r, result) && |turns| > 1 && turns[1].call.Validate?
    ensures !result.Missing? ==>
              && Play(w, r, turns, 1) == w
              && Answer(w.runs[r]) == if result.Cached? then Some(result.response) else None
  {
  }

  ghost predicate SaysValid(w: World, r: nat, accepted: bool) {
    r < |w.runs| &&
    if !accepted then w.runs[r].phase.Validating? || EndedInError(w.runs[r])
    else if !w.runs[r].cmd.PostPayment? then w.runs[r].phase.Writing?
    else if w.runs[r].cmd.customer.None? then EndedInError(w.runs[r])
    else w.runs[r].phase.Reserving?
  }

  lemma ValidateOutcome(w: World, r: nat, verdict: Verdict, id: Uuid, at: int)
    requires r < |w.runs| && w.runs[r].phase.Validating?
    ensures var w' := Apply(w, Validate(r, verdict, id, at));
            && SaysValid(w', r, id !in w.drawn && verdict == Accepted)
            && if id in w.drawn then w' == w
               else Enabled(w, Validate(r, verdict, id, at)) && w' == AfterValidate(w, r, verdict, id, at)
  {
  }

  ghost predicate SaysReserved(w: World, r: nat, ok: bool) {
    r < |w.runs| && if ok then w.runs[r].phase.Writing? else w.runs[r].phase.Reserving? || EndedInError(w.runs[r])
  }

  lemma ReserveOutcome(w: World, r: nat, reply: ReserveReply)
    requires r < |w.runs| && w.runs[r].phase.Reserving? && w.runs[r].cmd.PostPayment?
    ensures var w', cmd := Apply(w, Reserve(r, reply)), w.runs[r].cmd;
            var dead := reply in {Reserved, ErrorAfterHold} && !CanReserve(w, cmd.source, cmd.amount.Value());
            && SaysReserved(w', r, !dead && reply == Reserved)
            && if dead then w' == w else Enabled(w, Reserve(r, reply)) && w' == AfterReserve(w, r, reply)
  {
  }

  ghost predicate SaysWritten(w: World, r: nat, result: WriteResult) {
    r < |w.runs| &&
    match result
    case Booked(response) => w.runs[r].phase.Done? && Answer(w.runs[r]) == Some(response)
    case RolledBack => if w.runs[r].cmd.PostPayment? then w.runs[r].phase.Compensating? else EndedInError(w.runs[r])
    case Interrupted => w.runs[r].phase.Writing?
  }

  lemma WriteOutcome(w: World, r: nat, journalId: Uuid, eventId: Uuid, fault: Option<WriteCall>)
    requires r < |w.runs| && w.runs[r].phase.Writing?
    ensures var w' := Apply(w, Write(r, journalId, eventId, fault));
            var dead := journalId in w.drawn || eventId in w.drawn || journalId == eventId;
            && SaysWritten(w', r, if dead then Interrupted
                                  else if WriteFails(w, w.runs[r].cmd, w.runs[r].phase.id, fault) then RolledBack
                                  else Booked(ResponseOf(Attempt(w.runs[r], journalId, eventId))))
            && if dead then w' == w
               else Enabled(w, Write(r, journalId, eventId, fault)) && w' == AfterWrite(w, r, journalId, eventId, fault)
  {
  }

  lemma ReleaseOutcome(w: World, r: nat, released: bool)
    requires r < |w.runs| && w.runs[r].phase.Compensating? && w.runs[r].cmd.PostPayment?
    ensures var w', cmd := Apply(w, Release(r, released)), w.runs[r].cmd;
            && r < |w'.runs| && Answer(w'.runs[r]).None?
            && if released && !CanRelease(w, cmd.source, cmd.amount.Value()) then w' == w
               else Enabled(w, Release(r, released)) && w' == AfterRelease(w, r, released)
  {
  }

  /** The run ended without a result. */
  predicate EndedInError(run: Run) {
    run.phase.Done? && Answer(run).None?
  }

  class Ledger {
    var payments: seq<Payment>
    var journals: seq<JournalEntry>
    var outbox: seq<OutboxEvent>
    var idempotency: map<string, IdempotencyRecord>
    var balances: map<Uuid, Balance>
    var holds: map<Uuid, Hold>
    var runs: seq<Run>
    var drawn: set<Uuid>
    var log: seq<Commit>

    function View(): World
      reads this
    {
      World(payments, journals, outbox, idempotency, balances, holds, runs, drawn, log)
    }

    constructor (available: map<Uuid, real>)
      requires forall a :: a in available ==> available[a] >= 0.0
      ensures Initial(View()) && drawn == {}
      ensures balances == map a | a in available :: Balance(available[a], 0.0)
    {
      payments, journals, outbox, idempotency := [], [], [], map[];
      balances := map a | a in available :: Balance(available[a], 0.0);
      holds, runs, drawn, log := map[], [], {}, [];
    }

    /** The statements of the write transaction, on its own copies; the first failing one ends it. */
    method InTransaction(c: Commit, fault: Option<WriteCall>) returns (ok: bool, tx: Tables)
      ensures ok <==> !WriteFails(View(), c.cmd, c.id, fault)
      ensures ok ==> var w := AddRows(View(), c); tx == Tables(w.payments, w.journals, w.outbox, w.idempotency)
    {
      ok, tx := false, Tables(payments, journals, outbox, idempotency);
      if c.cmd.PostPayment? {
        if fault == Some(InsertPayment) || HasPaymentKey(tx.payments, c.cmd.key) || HasPaymentId(tx.payments, c.id) {
          return;
        }
        tx := tx.(payments := tx.payments + [PaymentOf(c).(status := Processing)]);
      }
      LinesBalance(c.cmd);
      var balanced := EnsureBalanced(Lines(c.cmd));
      if !balanced || fault == Some(InsertJournal) {
        return;
      }
      tx := tx.(journals := tx.journals + [JournalOf(c)]);
      if fault == Some(InsertOutbox) {
        return;
      }
      tx := tx.(outbox := tx.outbox + [EventOf(c)]);
      if c.cmd.PostPayment? {
        if fault == Some(UpdateStatus) {
          return;
        }
        StatusOfNewRow(payments, PaymentOf(c).(status := Processing), Posted);
        tx := tx.(payments := WithStatus(tx.payments, c.id, Posted));
      }
      if fault == Some(PutRecord) {
        return;
      }
      if c.cmd.key !in tx.idempotency {
        tx := tx.(idempotency := tx.idempotency[c.cmd.key := RecordOf(c)]);
      }
      ok := fault.None?;
    }

    /** Nothing of the transaction is seen unless it commits; a payment that fails goes to compensation. */
    method DoWrite(r: nat, journalId: Uuid, eventId: Uuid, fault: Option<WriteCall>) returns (ok: bool)
      requires Enabled(View(), Write(r, journalId, eventId, fault))
      modifies this
      ensures View() == AfterWrite(old(View()), r, journalId, eventId, fault)
      ensures ok <==> !WriteFails(old(View()), old(runs[r].cmd), old(runs[r].phase.id), fault)
    {
      var run := runs[r];
      var c := Attempt(run, journalId, eventId);
      var tx;
      ok, tx := InTransaction(c, fault);
      if ok {
        CommitTx(c, tx);
        SetRun(r, Done(Committed(c)));
      } else if run.cmd.PostPayment? {
        SetRun(r, Compensating(c.id));
      } else {
        SetRun(r, Done(CreditFailed(c.id)));
      }
    }

    method CommitTx(c: Commit, tx: Tables)
      requires var w := AddRows(View(), c); tx == Tables(w.payments, w.journals, w.outbox, w.idempotency)
      modifies this
      ensures View() == AddRows(old(View()), c)
    {
      payments, journals, outbox, idempotency := tx.payments, tx.journals, tx.outbox, tx.idempotency;
      drawn := drawn + {c.id, c.journalId, c.eventId};
      log := log + [c];
    }

    /** Accounts moves funds to hold if they are available. */
    method TakeFunds(id: Uuid, account: Uuid, amount: real)
      requires CanReserve(View(), account, amount)
      modifies this`balances, this`holds
      ensures View() == TakeHold(old(View()), id, account, amount)
    {
      var b := balances[account];
      balances := balances[account := Balance(b.available - amount, b.hold + amount)];
      holds := holds[id := Hold(account, amount)];
    }

    method ReturnFunds(id: Uuid, account: Uuid, amount: real)
      requires CanRelease(View(), account, amount)
      modifies this`balances, this`holds
      ensures View() == DropHold(old(View()), id, account, amount)
    {
      var b := balances[account];
      balances := balances[account := Balance(b.available + amount, b.hold - amount)];
      holds := holds - {id};
    }

    method SetRun(r: nat, phase: Phase)
      requires r < |runs|
      modifies this`runs
      ensures View() == SetPhase(old(View()), r, phase)
    {
      runs := runs[r := runs[r].(phase := phase)];
    }

    method DoValidate(r: nat, verdict: Verdict, id: Uuid, at: int)
      requires Enabled(View(), Validate(r, verdict, id, at))
      modifies this
      ensures View() == AfterValidate(old(View()), r, verdict, id, at)
    {
      if verdict != Accepted {
        SetRun(r, Done(Rejected));
        return;
      }
      drawn := drawn + {id};
      if !runs[r].cmd.PostPayment? {
        SetRun(r, Writing(id, at));
      } else if runs[r].cmd.customer.None? {
        SetRun(r, Done(Rejected));
      } else {
        SetRun(r, Reserving(id, at));
      }
    }

    method DoReserve(r: nat, reply: ReserveReply)
      requires Enabled(View(), Reserve(r, reply))
      modifies this
      ensures View() == AfterReserve(old(View()), r, reply)
    {
      var run := runs[r];
      if reply == Reserved || reply == ErrorAfterHold {
        TakeFunds(run.phase.id, run.cmd.source, run.cmd.amount.Value());
      }
      if reply == Reserved {
        SetRun(r, Writing(run.phase.id, run.phase.at));
      } else {
        SetRun(r, Done(ReserveFailed(run.phase.id, reply == ErrorAfterHold)));
      }
    }

    method DoRelease(r: nat, released: bool)
      requires Enabled(View(), Release(r, released))
      modifies this
      ensures View() == AfterRelease(old(View()), r, released)
    {
      var run := runs[r];
      if released {
        ReturnFunds(run.phase.id, run.cmd.source, run.cmd.amount.Value());
      }
      SetRun(r, Done(Compensated(run.phase.id, released)));
    }

    method DoRead(r: nat, found: ReadReply)
      requires Enabled(View(), Read(r, found))
      modifies this
      ensures View() == AfterRead(old(View()), r, found)
    {
      match found
      case ReadError => SetRun(r, Done(Rejected));
      case Absent => SetRun(r, Validating);
      case Found => SetRun(r, Done(Replayed(Decode(runs[r].cmd, idempotency[runs[r].cmd.key].response))));
    }

    method DoBegin(cmd: Command)
      modifies this
      ensures View() == AfterBegin(old(View()), cmd)
    {
      runs := runs + [Run(cmd, if Exact(cmd.amount) then Reading else Done(Rejected))];
    }

    method DoFund(account: Uuid, amount: real)
      requires account in balances
      modifies this
      ensures View() == AfterFund(old(View()), account, amount)
    {
      var b := balances[account];
      balances := balances[account := b.(available := b.available + amount)];
    }

    method Perform(s: Step)
      requires Enabled(View(), s)
      modifies this
      ensures View() == Apply(old(View()), s)
    {
      match s
      case Begin(cmd) => DoBegin(cmd);
      case Read(r, found) => DoRead(r, found);
      case Validate(r, verdict, id, at) => DoValidate(r, verdict, id, at);
      case Reserve(r, reply) => DoReserve(r, reply);
      case Write(r, journalId, eventId, fault) => var _ := DoWrite(r, journalId, eventId, fault);
      case Release(r, released) => DoRelease(r, released);
      case Fund(account, amount) => DoFund(account, amount);
    }

    /** One call of one run. A step that cannot happen now is a call that died: nothing changes. */
    method Call(s: Step)
      modifies this
      ensures View() == Apply(old(View()), s)
    {
      if Enabled(View(), s) {
        Perform(s);
      }
    }

    method Other(r: nat, s: Step)
      requires r < |runs|
      modifies this
      ensures View() == if StepOf(s, r) then old(View()) else Apply(old(View()), s)
      ensures r < |runs| && runs[r] == old(runs[r])
    {
      if !StepOf(s, r) {
        OthersLeaveRun(View(), s, r);
        Call(s);
      }
    }

    /** What the other runs do meanwhile: anything, but nothing in this run's name. */
    method Others(r: nat, steps: seq<Step>)
      requires r < |runs|
      modifies this
      ensures View() == Exec(old(View()), Foreign(steps, r))
      ensures r < |runs| && runs[r] == old(runs[r])
    {
      ghost var w, run := View(), runs[r];
      assert Foreign(steps[..0], r) == [];
      for i := 0 to |steps|
        invariant View() == Exec(w, Foreign(steps[..i], r))
        invariant r < |runs| && runs[r] == run
      {
        ForeignAppend(w, steps, i, r);
        Other(r, steps[i]);
      }
      assert steps[..|steps|] == steps;
    }

    /** The idempotency read: an error, no record, or the stored result. */
    method ReadRecord(r: nat, found: ReadReply) returns (result: ReadResult)
      requires r < |runs| && runs[r].phase.Reading?
      modifies this
      ensures View() == Apply(old(View()), Read(r, found)) && SaysRead(View(), r, result)
    {
      var cmd := runs[r].cmd;
      ReadOutcome(View(), r, found);
      if found == Found && cmd.key !in idempotency {
        return ReadFailed;
      }
      match found {
        case ReadError => result := ReadFailed;
        case Absent => result := Missing;
        case Found => result := Cached(Decode(cmd, idempotency[cmd.key].response));
      }
      DoRead(r, found);
    }

    /** The validation by Accounts; if it accepts, the id is drawn. */
    method ValidateAccounts(r: nat, verdict: Verdict, id: Uuid, at: int) returns (accepted: bool)
      requires r < |runs| && runs[r].phase.Validating?
      modifies this
      ensures View() == Apply(old(View()), Validate(r, verdict, id, at)) && SaysValid(View(), r, accepted)
    {
      ValidateOutcome(View(), r, verdict, id, at);
      if id in drawn {
        return false;
      }
      DoValidate(r, verdict, id, at);
      return verdict == Accepted;
    }

    /** The hold is taken outside the transaction. */
    method ReserveHold(r: nat, reply: ReserveReply) returns (ok: bool)
      requires r < |runs| && runs[r].phase.Reserving? && runs[r].cmd.PostPayment?
      modifies this
      ensures View() == Apply(old(View()), Reserve(r, reply)) && SaysReserved(View(), r, ok)
    {
      var cmd := runs[r].cmd;
      ReserveOutcome(View(), r, reply);
      if (reply == Reserved || reply == ErrorAfterHold) && !CanReserve(View(), cmd.source, cmd.amount.Value()) {
        return false;
      }
      DoReserve(r, reply);
      return reply == Reserved;
    }

    /** The transaction with its fresh ids. */
    method WriteRows(r: nat, journalId: Uuid, eventId: Uuid, fault: Option<WriteCall>) returns (result: WriteResult)
      requires r < |runs| && runs[r].phase.Writing?
      modifies this
      ensures View() == Apply(old(View()), Write(r, journalId, eventId, fault)) && SaysWritten(View(), r, result)
    {
      var run := runs[r];
      WriteOutcome(View(), r, journalId, eventId, fault);
      if journalId in drawn || eventId in drawn || journalId == eventId {
        return Interrupted;
      }
      var ok := DoWrite(r, journalId, eventId, fault);
      return if ok then Booked(ResponseOf(Attempt(run, journalId, eventId))) else RolledBack;
    }

    /** The compensation: its outcome is ignored. */
    method ReleaseHold(r: nat, released: bool)
      requires r < |runs| && runs[r].phase.Compensating? && runs[r].cmd.PostPayment?
      modifies this
      ensures View() == Apply(old(View()), Release(r, released)) && r < |runs| && Answer(runs[r]).None?
    {
      var cmd := runs[r].cmd;
      ReleaseOutcome(View(), r, released);
      if released && !CanRelease(View(), cmd.source, cmd.amount.Value()) {
        return;
      }
      DoRelease(r, released);
    }

    // Each call after what others did meanwhile.

    method ReadTurn(r: nat, others: seq<Step>, found: ReadReply, ghost turns: seq<Turn>) returns (result: ReadResult)
      requires r < |runs| && runs[r].phase.Reading?
      requires |turns| > 1 && turns[0] == Turn(others, Read(r, found)) && turns[1].call.Validate?
      modifies this
      ensures KeepsCommand(old(View()), View(), r)
      ensures Play(old(View()), r, turns, 0) == if result.Missing? then Play(View(), r, turns, 1) else View()
      ensures match result
              case Missing => runs[r].phase.Validating?
              case Cached(response) => Answer(runs[r]) == Some(response)
              case ReadFailed => Answer(runs[r]).None?
    {
      ghost var w := View();
      Others(r, others);
      StepKeepsCommand(View(), Read(r, found), r);
      result := ReadRecord(r, found);
      PlayTurn(w, r, turns, 0, View());
      ReadStops(View(), r, turns, result);
    }

    method ValidateTurn(r: nat, others: seq<Step>, verdict: Verdict, id: Uuid, at: int, ghost turns: seq<Turn>, ghost k: nat) returns (accepted: bool)
      requires r < |runs| && runs[r].phase.Validating?
      requires k < |turns| && turns[k] == Turn(others, Validate(r, verdict, id, at))
      modifies this
      ensures Play(old(View()), r, turns, k) == Play(View(), r, turns, k + 1)
      ensures SaysValid(View(), r, accepted) && KeepsCommand(old(View()), View(), r)
    {
      ghost var w := View();
      Others(r, others);
      StepKeepsCommand(View(), Validate(r, verdict, id, at), r);
      accepted := ValidateAccounts(r, verdict, id, at);
      PlayTurn(w, r, turns, k, View());
    }

    method ReserveTurn(r: nat, others: seq<Step>, reply: ReserveReply, ghost turns: seq<Turn>, ghost k: nat) returns (ok: bool)
      requires r < |runs| && runs[r].phase.Reserving? && runs[r].cmd.PostPayment?
      requires k < |turns| && turns[k] == Turn(others, Reserve(r, reply))
      modifies this
      ensures Play(old(View()), r, turns, k) == Play(View(), r, turns, k + 1)
      ensures SaysReserved(View(), r, ok) && KeepsCommand(old(View()), View(), r)
    {
      ghost var w := View();
      Others(r, others);
      StepKeepsCommand(View(), Reserve(r, reply), r);
      ok := ReserveHold(r, reply);
      PlayTurn(w, r, turns, k, View());
    }

    method WriteTurn(r: nat, others: seq<Step>, journalId: Uuid, eventId: Uuid, fault: Option<WriteCall>, ghost turns: seq<Turn>, ghost k: nat) returns (result: WriteResult)
      requires r < |runs| && runs[r].phase.Writing?
      requires k < |turns| && turns[k] == Turn(others, Write(r, journalId, eventId, fault))
      modifies this
      ensures Play(old(View()), r, turns, k) == Play(View(), r, turns, k + 1)
      ensures SaysWritten(View(), r, result) && KeepsCommand(old(View()), View(), r)
    {
      ghost var w := View();
      Others(r, others);
      StepKeepsCommand(View(), Write(r, journalId, eventId, fault), r);
      result := WriteRows(r, journalId, eventId, fault);
      PlayTurn(w, r, turns, k, View());
    }

    method ReleaseTurn(r: nat, others: seq<Step>, released: bool, ghost turns: seq<Turn>, ghost k: nat)
      requires r < |runs| && runs[r].phase.Compensating? && runs[r].cmd.PostPayment?
      requires k < |turns| && turns[k] == Turn(others, Release(r, released))
      modifies this
      ensures Play(old(View()), r, turns, k) == Play(View(), r, turns, k + 1)
      ensures r < |runs| && Answer(runs[r]).None?
    {
      ghost var w := View();
      Others(r, others);
      ReleaseHold(r, released);
      PlayTurn(w, r, turns, k, View());
    }

    /** The exactness check of the amount. */
    method BeginRun(cmd: Command, env: Environment) returns (r: nat, exact: bool)
      modifies this
      ensures r == |old(runs)| < |runs| && runs[r].cmd == cmd
      ensures runs[r].phase == if exact then Reading else Done(Rejected)
      ensures Operation(old(View()), cmd, env) == Play(View(), r, TurnsOf(cmd, env, r), 0)
    {
      r, exact := |runs|, Exact(cmd.amount);
      Call(Begin(cmd));
    }

    /** What all three operations do first: the exactness check, the idempotency read, the validation. */
    method Check(cmd: Command, env: Environment, ghost turns: seq<Turn>) returns (r: nat, passed: bool, cached: Option<Response>)
      requires turns == TurnsOf(cmd, env, |runs|)
      modifies this
      ensures r == |old(runs)| < |runs| && runs[r].cmd == cmd
      ensures Operation(old(View()), cmd, env) == if passed then Play(View(), r, turns, 2) else View()
      ensures passed ==> if cmd.PostPayment? then runs[r].phase.Reserving? else runs[r].phase.Writing?
      ensures !passed ==> cached == Answer(runs[r])
    {
      passed, cached := false, None;
      var exact;
      r, exact := BeginRun(cmd, env);
      if !exact {
        PlayStops(View(), r, turns, 0);
        return;
      }
      passed, cached := CheckBegun(r, cmd, env, turns);
    }

    method CheckBegun(r: nat, cmd: Command, env: Environment, ghost turns: seq<Turn>)
      returns (passed: bool, cached: Option<Response>)
      requires r < |runs| && runs[r].cmd == cmd && runs[r].phase.Reading?
      requires |turns| > 2 && (turns[2].call.Reserve? || turns[2].call.Write?)
      requires turns[0] == Turn(env.Meanwhile(0), Read(r, env.found))
      requires turns[1] == Turn(env.Meanwhile(1), Validate(r, env.verdict, env.id, env.at))
      modifies this
      ensures r < |runs| && runs[r].cmd == cmd
      ensures Play(old(View()), r, turns, 0) == if passed then Play(View(), r, turns, 2) else View()
      ensures passed ==> if cmd.PostPayment? then runs[r].phase.Reserving? else runs[r].phase.Writing?
      ensures !passed ==> cached == Answer(runs[r])
    {
      passed, cached := false, None;
      var read := ReadTurn(r, env.Meanwhile(0), env.found, turns);
      match read {
        case ReadFailed =>
        case Cached(response) => cached := Some(response);
        case Missing => passed := CheckMissing(r, cmd, env, turns);
      }
    }

    method CheckMissing(r: nat, cmd: Command, env: Environment, ghost turns: seq<Turn>) returns (passed: bool)
      requires r < |runs| && runs[r].cmd == cmd && runs[r].phase.Validating?
      requires |turns| > 2 && (turns[2].call.Reserve? || turns[2].call.Write?)
      requires turns[1] == Turn(env.Meanwhile(1), Validate(r, env.verdict, env.id, env.at))
      modifies this
      ensures r < |runs| && runs[r].cmd == cmd
      ensures Play(old(View()), r, turns, 1) == if passed then Play(View(), r, turns, 2) else View()
      ensures if !passed then Answer(runs[r]).None?
              else if cmd.PostPayment? then runs[r].phase.Reserving? else runs[r].phase.Writing?
    {
      passed := ValidateTurn(r, env.Meanwhile(1), env.verdict, env.id, env.at, turns, 1);
      passed := passed && !(cmd.PostPayment? && cmd.customer.None?);
      if !passed {
        PlayStops(View(), r, turns, 2);
      }
    }

    /** PostPayment: the checks, then reserve, write, and release if the write failed. */
    method PostPayment(cmd: Command, env: Environment) returns (answer: Option<Response>)
      requires cmd.PostPayment?
      modifies this
      ensures View() == Operation(old(View()), cmd, env)
      ensures |old(runs)| < |runs| && answer == Answer(runs[|old(runs)|])
    {
      ghost var turns := PaymentTurns(env, |runs|);
      var r, passed, cached := Check(cmd, env, turns);
      if !passed {
        return cached;
      }
      answer := Pay(r, env, turns);
    }

    /** The hold, then the transaction. */
    method Pay(r: nat, env: Environment, ghost turns: seq<Turn>) returns (answer: Option<Response>)
      requires r < |runs| && runs[r].phase.Reserving? && runs[r].cmd.PostPayment? && turns == PaymentTurns(env, r)
      modifies this
      ensures View() == Play(old(View()), r, turns, 2)
      ensures r < |runs| && answer == Answer(runs[r])
    {
      var reserved := ReserveTurn(r, env.Meanwhile(2), env.reply, turns, 2);
      if !reserved {
        PlayStops(View(), r, turns, 3);
        return None;
      }
      answer := WriteOrRelease(r, env, turns);
    }

    /** The transaction, and the compensation if it failed. */
    method WriteOrRelease(r: nat, env: Environment, ghost turns: seq<Turn>) returns (answer: Option<Response>)
      requires r < |runs| && runs[r].phase.Writing? && runs[r].cmd.PostPayment? && turns == PaymentTurns(env, r)
      modifies this
      ensures View() == Play(old(View()), r, turns, 3)
      ensures r < |runs| && answer == Answer(runs[r])
    {
      var written := WriteTurn(r, env.Meanwhile(3), env.journalId, env.eventId, env.fault, turns, 3);
      if !written.RolledBack? {
        PlayStops(View(), r, turns, 4);
        return if written.Booked? then Some(written.response) else None;
      }
      ReleaseTurn(r, env.Meanwhile(4), env.released, turns, 4);
      PlayStops(View(), r, turns, 5);
      return None;
    }

    /** CreditAccount and CreditAccountSystem: the checks, then write. */
    method Credit(cmd: Command, env: Environment) returns (answer: Option<Response>)
      requires !cmd.PostPayment?
      modifies this
      ensures View() == Operation(old(View()), cmd, env)
      ensures |old(runs)| < |runs| && answer == Answer(runs[|old(runs)|])
    {
      ghost var turns := CreditTurns(env, |runs|);
      var r, passed, cached := Check(cmd, env, turns);
      if !passed {
        return cached;
      }
      var written := WriteTurn(r, env.Meanwhile(2), env.journalId, env.eventId, env.fault, turns, 2);
      PlayStops(View(), r, turns, 3);
      return if written.Booked? then Some(written.response) else None;
    }
  }
}
