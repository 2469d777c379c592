/** Commands, table rows and the rows one successful write adds. */
module Entities {
  import opened Common
  import opened Decimals

  /** Canonical text of a UUID. */
  type Uuid = s: string | |s| == 36 witness seq(36, i => '0')

  const NIL_UUID: Uuid := "00000000-0000-0000-0000-000000000000"

  datatype Command =
    | PostPayment(key: string, source: Uuid, destination: Uuid, currency: string, amount: Decimal,
                  initiatedBy: string, customer: Option<Uuid>)
    | CreditAccount(key: string, account: Uuid, currency: string, amount: Decimal,
                    initiatedBy: string, externalRef: string)
    | CreditAccountSystem(key: string, account: Uuid, currency: string, amount: Decimal,
                          externalRef: string, reason: string)

  datatype PaymentStatus = Pending | Processing | Posted | Failed

  datatype Payment = Payment(id: Uuid, key: string, source: Uuid, destination: Uuid, amount: real, currency: string,
                             status: PaymentStatus, customer: Uuid, holdId: Uuid, journalId: Uuid, createdAt: int)

  datatype EntryLine = EntryLine(glCode: string, counterparty: Option<string>, debit: real, credit: real)

  datatype JournalStatus = JournalPosted | JournalReversed | JournalVoid

  datatype JournalEntry = JournalEntry(id: Uuid, externalRef: string, bookedAt: int, createdBy: string,
                                       status: JournalStatus, currency: string, lines: seq<EntryLine>)

  /** Amounts in payloads are StringFixed(6) texts, kept as a count of millionths. */
  datatype Payload =
    | PaymentPayload(paymentId: Uuid, source: Uuid, destination: Uuid, currency: string, millionths: int,
                     holdId: Uuid, journalId: Uuid, occurredAt: int)
    | LedgerPayload(journalId: Uuid, account: Uuid, currency: string, millionths: int,
                    origin: Option<(string, string)>, occurredAt: int)

  datatype OutboxEvent = OutboxEvent(id: Uuid, aggregateType: string, aggregateId: Uuid, eventType: string,
                                     payload: Payload, createdAt: int)

  datatype Response =
    | PaymentResult(paymentId: Uuid, status: string)
    | CreditResult(journalId: Uuid, status: string)

  datatype IdempotencyRecord = IdempotencyRecord(operation: string, response: Response, statusCode: int, createdAt: int)

  // --- The rows of one write ----------------------------------------------------------------

  /** One committed write. For a payment id is the payment id, for a credit it is the journal id. */
  datatype Commit = Commit(cmd: Command, id: Uuid, journalId: Uuid, eventId: Uuid, at: int)

  function PaymentOf(c: Commit): Payment
    requires c.cmd.PostPayment?
  {
    var cmd := c.cmd;
    Payment(c.id, cmd.key, cmd.source, cmd.destination, cmd.amount.Value(), cmd.currency,
            Posted, cmd.customer.GetOr(NIL_UUID), c.id, c.journalId, c.at)
  }

  function Lines(cmd: Command): seq<EntryLine> {
    var amount := cmd.amount.Value();
    match cmd
    case PostPayment(_, source, destination, _, _, _, _) =>
      [EntryLine("GL_OUT", Some(source), amount, 0.0), EntryLine("GL_IN", Some(destination), 0.0, amount)]
    case _ =>
      [EntryLine("GL_SYSTEM_FUND", None, amount, 0.0), EntryLine("GL_CUSTOMER_CASH", Some(cmd.account), 0.0, amount)]
  }

  function JournalOf(c: Commit): JournalEntry {
    match c.cmd
    case PostPayment(_, _, _, currency, _, initiatedBy, _) =>
      JournalEntry(c.journalId, "payment:" + c.id, c.at, initiatedBy, JournalPosted, currency, Lines(c.cmd))
    case CreditAccount(_, _, currency, _, initiatedBy, externalRef) =>
      JournalEntry(c.journalId, externalRef, c.at, initiatedBy, JournalPosted, currency, Lines(c.cmd))
    case CreditAccountSystem(_, _, currency, _, externalRef, _) =>
      JournalEntry(c.journalId, externalRef, c.at, "system", JournalPosted, currency, Lines(c.cmd))
  }

  function EventOf(c: Commit): OutboxEvent {
    var millionths := Fixed6(c.cmd.amount.Value());
    match c.cmd
    case PostPayment(_, source, destination, currency, _, _, _) =>
      OutboxEvent(c.eventId, "payment", c.id, "payment.posted",
                  PaymentPayload(c.id, source, destination, currency, millionths, c.id, c.journalId, c.at), c.at)
    case CreditAccount(_, account, currency, _, _, _) =>
      OutboxEvent(c.eventId, "ledger", c.journalId, "ledger.posted",
                  LedgerPayload(c.journalId, account, currency, millionths, None, c.at), c.at)
    case CreditAccountSystem(_, account, currency, _, externalRef, reason) =>
      OutboxEvent(c.eventId, "ledger", c.journalId, "ledger.posted",
                  LedgerPayload(c.journalId, account, currency, millionths, Some((reason, externalRef)), c.at), c.at)
  }

  function ResponseOf(c: Commit): Response {
    if c.cmd.PostPayment? then PaymentResult(c.id, "posted") else CreditResult(c.journalId, "posted")
  }

  /** Unmarshalling a stored result as the caller's result type: a field it does not have stays nil. */
  function Decode(cmd: Command, stored: Response): Response {
    match stored
    case PaymentResult(id, status) => if cmd.PostPayment? then stored else CreditResult(NIL_UUID, status)
    case CreditResult(id, status) => if cmd.PostPayment? then PaymentResult(NIL_UUID, status) else stored
  }

  function OperationOf(cmd: Command): string {
    match cmd
    case PostPayment(_, _, _, _, _, _, _) => "PostPayment"
    case CreditAccount(_, _, _, _, _, _) => "PostTopup"
    case CreditAccountSystem(_, _, _, _, _, reason) => "CreditAccountSystem:" + reason
  }

  function RecordOf(c: Commit): IdempotencyRecord {
    IdempotencyRecord(OperationOf(c.cmd), ResponseOf(c), 200, c.at)
  }
}
