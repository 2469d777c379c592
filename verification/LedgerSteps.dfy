/** PostPayment, CreditAccount and CreditAccountSystem as interleaved runs over the shared tables.

    A step is one call of one run: the idempotency read, the Accounts calls, the write transaction,
    the compensation. The step carries whatever the environment decides: which calls fail, whether a
    failed call still took effect, whether a read is stale, and the fresh ids. */
module LedgerSteps {
  import opened Common
  import opened Decimals
  import opened Entities

  /** What Accounts keeps per account. It ignores hold ids: reserving and releasing move amounts. */
  datatype Balance = Balance(available: real, hold: real)

  /** A hold as the ledger names it, by hold id. */
  datatype Hold = Hold(account: Uuid, amount: real)

  datatype Outcome =
    | Rejected
    | Replayed(response: Response)
    | ReserveFailed(id: Uuid, taken: bool)
    | Committed(commit: Commit)
    | Compensated(id: Uuid, released: bool)
    | CreditFailed(id: Uuid)

  datatype Phase =
    | Reading
    | Validating
    | Reserving(id: Uuid, at: int)
    | Writing(id: Uuid, at: int)
    | Compensating(id: Uuid)
    | Done(outcome: Outcome)

  datatype Run = Run(cmd: Command, phase: Phase)

  /** The tables, Accounts, the runs, the ids drawn so far and, for specification, the commits in order. */
  datatype World = World(payments: seq<Payment>, journals: seq<JournalEntry>, outbox: seq<OutboxEvent>,
                         idempotency: map<string, IdempotencyRecord>,
                         balances: map<Uuid, Balance>, holds: map<Uuid, Hold>,
                         runs: seq<Run>, drawn: set<Uuid>, log: seq<Commit>)

  datatype ReadReply = ReadError | Absent | Found
  datatype Verdict = ValidateError | Refused | Accepted
  datatype ReserveReply = Reserved | Declined | ErrorBeforeHold | ErrorAfterHold
  datatype WriteCall = InsertPayment | InsertJournal | InsertOutbox | UpdateStatus | PutRecord | CommitTx

  datatype Step =
    | Begin(cmd: Command)
    | Read(run: nat, found: ReadReply)
    | Validate(run: nat, verdict: Verdict, id: Uuid, at: int)
    | Reserve(run: nat, reply: ReserveReply)
    | Write(run: nat, journalId: Uuid, eventId: Uuid, fault: Option<WriteCall>)
    | Release(run: nat, released: bool)
    | Fund(account: Uuid, amount: real)

  predicate HasPaymentKey(payments: seq<Payment>, key: string) {
    exists i :: 0 <= i < |payments| && payments[i].key == key
  }

  predicate HasPaymentId(payments: seq<Payment>, id: Uuid) {
    exists i :: 0 <= i < |payments| && payments[i].id == id
  }

  /** A record is never changed or removed, so a stale read can miss it but not see another one. */
  predicate CanRead(w: World, key: string, found: ReadReply) {
    found == Found ==> key in w.idempotency
  }

  /** The guard of the atomic update: funds are there, and amounts are positive. */
  predicate CanReserve(w: World, account: Uuid, amount: real) {
    amount > 0.0 && account in w.balances && w.balances[account].available >= amount
  }

  predicate CanRelease(w: World, account: Uuid, amount: real) {
    amount > 0.0 && account in w.balances && w.balances[account].hold >= amount
  }

  predicate Enabled(w: World, s: Step) {
    match s
    case Begin(_) => true
    case Read(r, found) =>
      r < |w.runs| && w.runs[r].phase == Reading && CanRead(w, w.runs[r].cmd.key, found)
    case Validate(r, _, id, _) =>
      r < |w.runs| && w.runs[r].phase == Validating && id !in w.drawn
    case Reserve(r, reply) =>
      && r < |w.runs| && w.runs[r].phase.Reserving? && w.runs[r].cmd.PostPayment?
      && (reply in {Reserved, ErrorAfterHold} ==>
            CanReserve(w, w.runs[r].cmd.source, w.runs[r].cmd.amount.Value()))
    case Write(r, journalId, eventId, _) =>
      r < |w.runs| && w.runs[r].phase.Writing? && journalId !in w.drawn && eventId !in w.drawn && journalId != eventId
    case Release(r, released) =>
      && r < |w.runs| && w.runs[r].phase.Compensating? && w.runs[r].cmd.PostPayment?
      && (released ==> CanRelease(w, w.runs[r].cmd.source, w.runs[r].cmd.amount.Value()))
    case Fund(account, amount) => account in w.balances && amount > 0.0
  }

  function SetPhase(w: World, r: nat, phase: Phase): World
    requires r < |w.runs|
  {
    w.(runs := w.runs[r := w.runs[r].(phase := phase)])
  }

  function AfterBegin(w: World, cmd: Command): World {
    w.(runs := w.runs + [Run(cmd, if Exact(cmd.amount) then Reading else Done(Rejected))])
  }

  function AfterRead(w: World, r: nat, found: ReadReply): World
    requires Enabled(w, Read(r, found))
  {
    SetPhase(w, r, match found
                   case ReadError => Done(Rejected)
                   case Absent => Validating
                   case Found => Done(Replayed(Decode(w.runs[r].cmd, w.idempotency[w.runs[r].cmd.key].response))))
  }

  function AfterValidate(w: World, r: nat, verdict: Verdict, id: Uuid, at: int): World
    requires Enabled(w, Validate(r, verdict, id, at))
  {
    var cmd := w.runs[r].cmd;
    if verdict != Accepted then SetPhase(w, r, Done(Rejected))
    else
      var w' := w.(drawn := w.drawn + {id});
      if !cmd.PostPayment? then SetPhase(w', r, Writing(id, at))
      else if cmd.customer.None? then SetPhase(w', r, Done(Rejected))
      else SetPhase(w', r, Reserving(id, at))
  }

  function TakeHold(w: World, id: Uuid, account: Uuid, amount: real): World
    requires CanReserve(w, account, amount)
  {
    var b := w.balances[account];
    w.(balances := w.balances[account := Balance(b.available - amount, b.hold + amount)],
       holds := w.holds[id := Hold(account, amount)])
  }

  function DropHold(w: World, id: Uuid, account: Uuid, amount: real): World
    requires CanRelease(w, account, amount)
  {
    var b := w.balances[account];
    w.(balances := w.balances[account := Balance(b.available + amount, b.hold - amount)],
       holds := w.holds - {id})
  }

  function AfterReserve(w: World, r: nat, reply: ReserveReply): World
    requires Enabled(w, Reserve(r, reply))
  {
    var cmd, id, at := w.runs[r].cmd, w.runs[r].phase.id, w.runs[r].phase.at;
    match reply
    case Reserved => SetPhase(TakeHold(w, id, cmd.source, cmd.amount.Value()), r, Writing(id, at))
    case Declined => SetPhase(w, r, Done(ReserveFailed(id, false)))
    case ErrorBeforeHold => SetPhase(w, r, Done(ReserveFailed(id, false)))
    case ErrorAfterHold => SetPhase(TakeHold(w, id, cmd.source, cmd.amount.Value()), r, Done(ReserveFailed(id, true)))
  }

  /** The commit a writing run attempts: a credit drew its journal id before the transaction. */
  function Attempt(run: Run, journalId: Uuid, eventId: Uuid): Commit
    requires run.phase.Writing?
  {
    var id := run.phase.id;
    if run.cmd.PostPayment? then
      Commit(run.cmd, id, journalId, eventId, run.phase.at)
    else
      Commit(run.cmd, id, id, eventId, run.phase.at)
  }

  /** The transaction rolls back on any failed call, on the unique payments.idempotency_key and on the primary key. */
  predicate WriteFails(w: World, cmd: Command, id: Uuid, fault: Option<WriteCall>) {
    fault.Some? || (cmd.PostPayment? && (HasPaymentKey(w.payments, cmd.key) || HasPaymentId(w.payments, id)))
  }

  /** Put is INSERT ... ON CONFLICT (key) DO NOTHING: an existing record stays, without an error. */
  function Put(records: map<string, IdempotencyRecord>, key: string, rec: IdempotencyRecord): map<string, IdempotencyRecord> {
    if key in records then records else records[key := rec]
  }

  function AddRows(w: World, c: Commit): World {
    w.(payments := if c.cmd.PostPayment? then w.payments + [PaymentOf(c)] else w.payments,
       journals := w.journals + [JournalOf(c)],
       outbox := w.outbox + [EventOf(c)],
       idempotency := Put(w.idempotency, c.cmd.key, RecordOf(c)),
       drawn := w.drawn + {c.id, c.journalId, c.eventId},
       log := w.log + [c])
  }

  function AfterWrite(w: World, r: nat, journalId: Uuid, eventId: Uuid, fault: Option<WriteCall>): World
    requires Enabled(w, Write(r, journalId, eventId, fault))
  {
    var run := w.runs[r];
    var c := Attempt(run, journalId, eventId);
    if WriteFails(w, run.cmd, run.phase.id, fault) then
      SetPhase(w, r, if run.cmd.PostPayment? then Compensating(c.id) else Done(CreditFailed(c.id)))
    else SetPhase(AddRows(w, c), r, Done(Committed(c)))
  }

  function AfterRelease(w: World, r: nat, released: bool): World
    requires Enabled(w, Release(r, released))
  {
    var cmd, id := w.runs[r].cmd, w.runs[r].phase.id;
    SetPhase(if released then DropHold(w, id, cmd.source, cmd.amount.Value()) else w,
             r, Done(Compensated(id, released)))
  }

  function AfterFund(w: World, account: Uuid, amount: real): World
    requires account in w.balances
  {
    var b := w.balances[account];
    w.(balances := w.balances[account := b.(available := b.available + amount)])
  }

  /** Which run a step belongs to. */
  predicate StepOf(s: Step, r: nat) {
    match s
    case Begin(_) => false
    case Fund(_, _) => false
    case _ => s.run == r
  }

  /** One step; a step that cannot happen in this state changes nothing. */
  function Apply(w: World, s: Step): World {
    if !Enabled(w, s) then w
    else match s
      case Begin(cmd) => AfterBegin(w, cmd)
      case Read(r, found) => AfterRead(w, r, found)
      case Validate(r, verdict, id, at) => AfterValidate(w, r, verdict, id, at)
      case Reserve(r, reply) => AfterReserve(w, r, reply)
      case Write(r, journalId, eventId, fault) => AfterWrite(w, r, journalId, eventId, fault)
      case Release(r, released) => AfterRelease(w, r, released)
      case Fund(account, amount) => AfterFund(w, account, amount)
  }

  /** Any interleaving of any number of runs: steps in the order they happen. */
  function Exec(w: World, steps: seq<Step>): World {
    if steps == [] then w else Apply(Exec(w, steps[..|steps| - 1]), steps[|steps| - 1])
  }

  /** Empty tables, and accounts with funds and no holds. */
  predicate Initial(w: World) {
    && w.payments == [] && w.journals == [] && w.outbox == [] && w.idempotency == map[]
    && w.holds == map[] && w.runs == [] && w.log == []
    && forall a :: a in w.balances ==> w.balances[a].hold == 0.0 && w.balances[a].available >= 0.0
  }
}
