/** What readers of the tables and callers can rely on in every reachable state. */
module LedgerTheorems {
  import opened Common
  import opened Decimals
  import opened Entities
  import opened LedgerSteps
  import opened LedgerInvariant

  ghost predicate Reachable(w: World) {
    exists w0, steps :: Initial(w0) && w == Exec(w0, steps)
  }

  lemma ReachableInv(w: World)
    requires Reachable(w)
    ensures Inv(w)
  {
    var w0, steps :| Initial(w0) && w == Exec(w0, steps);
    InitialInv(w0);
    RunKeepsInv(w0, steps);
  }

  // --- Rows of a payment -------------------------------------------------------------------------

  ghost predicate JournalMatches(p: Payment, j: JournalEntry) {
    && j.id == p.journalId && j.externalRef == "payment:" + p.id
    && j.status == JournalPosted && j.currency == p.currency && j.bookedAt == p.createdAt
    && j.lines == [EntryLine("GL_OUT", Some(p.source), p.amount, 0.0),
                   EntryLine("GL_IN", Some(p.destination), 0.0, p.amount)]
  }

  ghost predicate EventMatches(p: Payment, e: OutboxEvent) {
    && e.aggregateType == "payment" && e.aggregateId == p.id && e.eventType == "payment.posted"
    && e.payload == PaymentPayload(p.id, p.source, p.destination, p.currency, Fixed6(p.amount),
                                   p.holdId, p.journalId, p.createdAt)
  }

  /** Row i is the only journal with this id. */
  ghost predicate OnlyJournal(w: World, i: nat, id: Uuid) {
    && i < |w.journals| && w.journals[i].id == id
    && forall k :: 0 <= k < |w.journals| && w.journals[k].id == id ==> k == i
  }

  ghost predicate OnlyEvent(w: World, i: nat, id: Uuid) {
    && i < |w.outbox| && w.outbox[i].aggregateId == id
    && forall k :: 0 <= k < |w.outbox| && w.outbox[k].aggregateId == id ==> k == i
  }

  lemma {:induction false} PaymentIsCommitted(log: seq<Commit>, p: Payment) returns (i: nat)
    requires p in PaymentsOf(log)
    ensures i < |log| && log[i].cmd.PostPayment? && p == PaymentOf(log[i])
    decreases |log|
  {
    i := |log| - 1;
    if p in PaymentsOf(log[..i]) {
      i := PaymentIsCommitted(log[..i], p);
    }
  }

  lemma {:induction false} CommitIsPaid(log: seq<Commit>, i: nat)
    requires i < |log| && log[i].cmd.PostPayment?
    ensures PaymentOf(log[i]) in PaymentsOf(log)
    decreases |log|
  {
    if i < |log| - 1 {
      CommitIsPaid(log[..|log| - 1], i);
    }
  }

  lemma DistinctEitherWay(w: World, i: nat, k: nat)
    requires LogSound(w) && i < |w.log| && k < |w.log| && i != k
    ensures Distinct(w.log[i], w.log[k])
  {
    if i < k {
      assert Distinct(w.log[i], w.log[k]);
    } else {
      assert Distinct(w.log[k], w.log[i]);
    }
  }

  lemma RowsAreOnly(w: World, i: nat)
    requires TablesFollowLog(w) && LogSound(w) && i < |w.log| && w.log[i].cmd.PostPayment?
    ensures OnlyJournal(w, i, w.log[i].journalId) && OnlyEvent(w, i, w.log[i].id)
  {
    forall k | 0 <= k < |w.log| && k != i
      ensures w.log[k].journalId != w.log[i].journalId && EventOf(w.log[k]).aggregateId != w.log[i].id
    {
      DistinctEitherWay(w, i, k);
      assert CommitSound(w, w.log[k]);
    }
  }

  lemma RowsMatch(c: Commit)
    requires c.cmd.PostPayment?
    ensures JournalMatches(PaymentOf(c), JournalOf(c)) && EventMatches(PaymentOf(c), EventOf(c))
  {
  }

  /** Every payment is posted and has exactly one journal and one event, carrying its accounts,
      currency and amount. */
  lemma PaymentHasItsRows(w: World, p: Payment) returns (i: nat)
    requires Reachable(w) && p in w.payments
    ensures p.status == Posted && p.holdId == p.id
    ensures OnlyJournal(w, i, p.journalId) && JournalMatches(p, w.journals[i])
    ensures OnlyEvent(w, i, p.id) && EventMatches(p, w.outbox[i])
  {
    ReachableInv(w);
    i := PaymentIsCommitted(w.log, p);
    RowsAreOnly(w, i);
    RowsMatch(w.log[i]);
  }

  ghost predicate RecordMatches(p: Payment, key: string, rec: IdempotencyRecord) {
    p.key == key && rec.response == PaymentResult(p.id, "posted") && rec.createdAt == p.createdAt
  }

  ghost predicate EventHasPayment(w: World, e: OutboxEvent) {
    exists p :: p in w.payments && EventMatches(p, e)
  }

  ghost predicate JournalHasPayment(w: World, j: JournalEntry) {
    exists p :: p in w.payments && JournalMatches(p, j)
  }

  ghost predicate RecordHasPayment(w: World, key: string, rec: IdempotencyRecord) {
    exists p :: p in w.payments && RecordMatches(p, key, rec)
  }

  lemma CommittedPayment(w: World, i: nat)
    requires w.payments == PaymentsOf(w.log) && i < |w.log| && w.log[i].cmd.PostPayment?
    ensures EventHasPayment(w, EventOf(w.log[i])) && JournalHasPayment(w, JournalOf(w.log[i]))
    ensures RecordHasPayment(w, w.log[i].cmd.key, RecordOf(w.log[i]))
  {
    var p := PaymentOf(w.log[i]);
    CommitIsPaid(w.log, i);
    RowsMatch(w.log[i]);
    assert RecordMatches(p, w.log[i].cmd.key, RecordOf(w.log[i]));
  }

  lemma PostPaymentRecord(w: World, key: string)
    requires TablesFollowLog(w) && key in w.idempotency && w.idempotency[key].operation == "PostPayment"
    ensures RecordHasPayment(w, key, w.idempotency[key])
  {
    var n := FirstUse(w.log, key);
    OtherOperations(w.log[n].cmd);
    CommittedPayment(w, n);
  }

  /** No payment event, payment journal or PostPayment record exists without its payment. */
  lemma PaymentRowsHaveTheirPayment(w: World, i: nat, key: string)
    requires Reachable(w)
    ensures i < |w.outbox| && w.outbox[i].eventType == "payment.posted" ==> EventHasPayment(w, w.outbox[i])
    ensures i < |w.journals| && w.journals[i].lines != [] && w.journals[i].lines[0].glCode == "GL_OUT" ==>
              JournalHasPayment(w, w.journals[i])
    ensures key in w.idempotency && w.idempotency[key].operation == "PostPayment" ==>
              RecordHasPayment(w, key, w.idempotency[key])
  {
    ReachableInv(w);
    if i < |w.log| && w.log[i].cmd.PostPayment? {
      CommittedPayment(w, i);
    }
    if key in w.idempotency && w.idempotency[key].operation == "PostPayment" {
      PostPaymentRecord(w, key);
    }
  }

  lemma OtherOperations(cmd: Command)
    ensures OperationOf(cmd) == "PostPayment" <==> cmd.PostPayment?
  {
    var op := OperationOf(cmd);
    if cmd.CreditAccountSystem? {
      assert op[0] == 'C';
    }
  }

  // --- Idempotency keys ----------------------------------------------------------------------------

  lemma {:induction false} KeyIsRecorded(log: seq<Commit>, i: nat)
    requires i < |log|
    ensures log[i].cmd.key in RecordsOf(log)
    decreases |log|
  {
    if i < |log| - 1 {
      KeyIsRecorded(log[..|log| - 1], i);
    }
  }

  lemma NotRecorded(log: seq<Commit>, key: string, i: nat)
    requires key !in RecordsOf(log) && i < |log|
    ensures log[i].cmd.key != key
  {
    KeyIsRecorded(log, i);
  }

  lemma {:induction false} FirstUse(log: seq<Commit>, key: string) returns (n: nat)
    requires key in RecordsOf(log)
    ensures n < |log| && log[n].cmd.key == key && RecordsOf(log)[key] == RecordOf(log[n])
    ensures forall i :: 0 <= i < n ==> log[i].cmd.key != key
    decreases |log|
  {
    n := |log| - 1;
    var before := log[..n];
    if key in RecordsOf(before) {
      n := FirstUse(before, key);
      assert forall i :: 0 <= i <= n ==> log[i] == before[i];
    } else {
      forall i: nat | i < n
        ensures log[i].cmd.key != key
      {
        NotRecorded(before, key, i);
      }
    }
  }

  lemma KeysOfRecords(log: seq<Commit>, key: string)
    ensures key in RecordsOf(log) <==> exists i :: 0 <= i < |log| && log[i].cmd.key == key
  {
    if key in RecordsOf(log) {
      var n := FirstUse(log, key);
    }
    if i :| 0 <= i < |log| && log[i].cmd.key == key {
      KeyIsRecorded(log, i);
    }
  }

  lemma {:induction false} KeysOfPayments(log: seq<Commit>)
    requires forall i, j :: 0 <= i < j < |log| && log[i].cmd.PostPayment? && log[j].cmd.PostPayment? ==>
               log[i].cmd.key != log[j].cmd.key
    ensures var ps := PaymentsOf(log); forall i, j :: 0 <= i < j < |ps| ==> ps[i].key != ps[j].key
    decreases |log|
  {
    if log != [] {
      var n := |log| - 1;
      KeysOfPayments(log[..n]);
      PaymentKeys(log[..n], log[n].cmd.key);
    }
  }

  lemma PaymentKeysUnique(w: World)
    requires LogSound(w) && w.payments == PaymentsOf(w.log)
    ensures forall i, j :: 0 <= i < j < |w.payments| ==> w.payments[i].key != w.payments[j].key
  {
    forall a, b | 0 <= a < b < |w.log| && w.log[a].cmd.PostPayment? && w.log[b].cmd.PostPayment?
      ensures w.log[a].cmd.key != w.log[b].cmd.key
    {
      assert Distinct(w.log[a], w.log[b]);
    }
    KeysOfPayments(w.log);
  }

  /** At most one payment per idempotency key, however stale the reads and however runs interleave. */
  lemma OnePaymentPerKey(w: World, i: nat, j: nat)
    requires Reachable(w) && i < j < |w.payments|
    ensures w.payments[i].key != w.payments[j].key
  {
    ReachableInv(w);
    PaymentKeysUnique(w);
  }

  predicate KeysOnce(log: seq<Commit>) {
    forall i, j :: 0 <= i < j < |log| ==> log[i].cmd.key != log[j].cmd.key
  }

  /** The step is a write that is not rolled back. */
  predicate Commits(w: World, s: Step) {
    s.Write? && Enabled(w, s) && !WriteFails(w, w.runs[s.run].cmd, w.runs[s.run].phase.id, s.fault)
  }

  /** The step commits although its key is recorded: the insert of its record hits ON CONFLICT DO NOTHING. */
  predicate Conflicts(w: World, s: Step) {
    Commits(w, s) && w.runs[s.run].cmd.key in w.idempotency
  }

  /** A step commits when it is a write that is not rolled back; nothing else adds to the history. */
  lemma OnlyWritesCommit(w: World, s: Step)
    ensures Apply(w, s).log ==
            if Commits(w, s)
            then w.log + [Attempt(w.runs[s.run], s.journalId, s.eventId)]
            else w.log
  {
  }

  lemma AppendKey(log: seq<Commit>, c: Commit)
    ensures KeysOnce(log + [c]) <==> KeysOnce(log) && c.cmd.key !in RecordsOf(log)
  {
    KeysOfRecords(log, c.cmd.key);
    var log' := log + [c];
    assert log'[|log|] == c && forall i :: 0 <= i < |log| ==> log'[i] == log[i];
    if c.cmd.key in RecordsOf(log) {
      var i :| 0 <= i < |log| && log[i].cmd.key == c.cmd.key;
      assert log'[i].cmd.key == log'[|log|].cmd.key;
    }
  }

  /** One more step keeps keys unique unless it is such a commit, and only then does it not. */
  lemma StepKeepsKeysUnique(w: World, s: Step)
    requires TablesFollowLog(w)
    ensures KeysOnce(Apply(w, s).log) <==> KeysOnce(w.log) && !Conflicts(w, s)
  {
    OnlyWritesCommit(w, s);
    if Commits(w, s) {
      AppendKey(w.log, Attempt(w.runs[s.run], s.journalId, s.eventId));
    }
  }

  /** No step of the interleaving is such a commit. */
  ghost predicate NoConflict(w0: World, steps: seq<Step>) {
    steps != [] ==>
      var n := |steps| - 1;
      NoConflict(w0, steps[..n]) && !Conflicts(Exec(w0, steps[..n]), steps[n])
  }

  /** A history uses each key at most once exactly when no commit met its key already recorded. */
  lemma {:induction false} KeysUniqueIffNoConflict(w0: World, steps: seq<Step>)
    requires Initial(w0)
    ensures KeysOnce(Exec(w0, steps).log) <==> NoConflict(w0, steps)
    decreases |steps|
  {
    if steps != [] {
      var n := |steps| - 1;
      KeysUniqueIffNoConflict(w0, steps[..n]);
      InitialInv(w0);
      RunKeepsInv(w0, steps[..n]);
      StepKeepsKeysUnique(Exec(w0, steps[..n]), steps[n]);
    }
  }

  lemma ExecAppend(w: World, steps: seq<Step>, s: Step)
    ensures Exec(w, steps + [s]) == Apply(Exec(w, steps), s)
  {
    assert (steps + [s])[..|steps|] == steps;
  }

  /** The record a payment leaves is its own exactly when its key was free at the commit. */
  lemma PaymentRecordIffKeyFree(w: World, s: Step)
    requires Inv(w) && Commits(w, s) && w.runs[s.run].cmd.PostPayment?
    ensures var p := PaymentOf(Attempt(w.runs[s.run], s.journalId, s.eventId));
            var w' := Apply(w, s);
            && p.key in w'.idempotency
            && (w'.idempotency[p.key].response == PaymentResult(p.id, "posted") <==> p.key !in w.idempotency)
  {
    var c := Attempt(w.runs[s.run], s.journalId, s.eventId);
    if c.cmd.key in w.idempotency {
      var n := FirstUse(w.log, c.cmd.key);
      NewCommitIsDistinct(w, s.run, s.journalId, s.eventId, n);
    }
  }

  lemma FirstUseIsOwnIff(w: World, i: nat, n: nat)
    requires LogSound(w) && n <= i < |w.log| && w.log[i].cmd.PostPayment? && w.log[n].cmd.key == w.log[i].cmd.key
    ensures ResponseOf(w.log[n]) == PaymentResult(w.log[i].id, "posted") <==> n == i
  {
    if n < i {
      DistinctEitherWay(w, n, i);
    }
  }

  /** The record under a payment's key holds its id exactly when no earlier commit used the key. */
  lemma RecordIsPaymentsIff(w: World, p: Payment) returns (i: nat)
    requires Reachable(w) && p in w.payments
    ensures i < |w.log| && w.log[i].cmd.PostPayment? && p == PaymentOf(w.log[i]) && p.key in w.idempotency
    ensures w.idempotency[p.key].response == PaymentResult(p.id, "posted") <==>
            forall k :: 0 <= k < i ==> w.log[k].cmd.key != p.key
  {
    ReachableInv(w);
    i := PaymentIsCommitted(w.log, p);
    KeyIsRecorded(w.log, i);
    var n := FirstUse(w.log, p.key);
    FirstUseIsOwnIff(w, i, n);
  }

  // --- Two credits under one key -------------------------------------------------------------------

  /** Both runs read before either writes. */
  function DoubleCreditScript(cmd: Command, ids: seq<Uuid>, at: int): seq<Step>
    requires |ids| == 6
  {
    [Begin(cmd), Begin(cmd), Read(0, Absent), Read(1, Absent),
     Validate(0, Accepted, ids[0], at), Validate(1, Accepted, ids[1], at),
     Write(0, ids[2], ids[3], None), Write(1, ids[4], ids[5], None)]
  }

  /** Any two overlapping credits with one key, even with reads that are not stale, are both booked:
      two journals and two events, and one record, that of the first. */
  lemma OverlappingCreditsBothCommit(w0: World, cmd: Command, ids: seq<Uuid>, at: int)
    requires Initial(w0) && w0.drawn == {} && !cmd.PostPayment? && Exact(cmd.amount)
    requires |ids| == 6 && forall i, j :: 0 <= i < j < 6 ==> ids[i] != ids[j]
    ensures var w := Exec(w0, DoubleCreditScript(cmd, ids, at));
            var first, second := Commit(cmd, ids[0], ids[0], ids[3], at), Commit(cmd, ids[1], ids[1], ids[5], at);
            && w.log == [first, second] && !KeysOnce(w.log)
            && w.journals == [JournalOf(first), JournalOf(second)]
            && w.idempotency == map[cmd.key := RecordOf(first)]
  {
    var script := DoubleCreditScript(cmd, ids, at);
    ScriptOfEight(w0, script);
    BothCommit(w0, cmd, ids, at);
    var log := Chain(Chain(w0, script[..4]), script[4..]).log;
    assert log[0].cmd.key == log[1].cmd.key;
  }

  lemma BothCommit(w0: World, cmd: Command, ids: seq<Uuid>, at: int)
    requires Initial(w0) && w0.drawn == {} && !cmd.PostPayment? && Exact(cmd.amount)
    requires |ids| == 6 && forall i, j :: 0 <= i < j < 6 ==> ids[i] != ids[j]
    ensures var first, second := Commit(cmd, ids[0], ids[0], ids[3], at), Commit(cmd, ids[1], ids[1], ids[5], at);
            var script := DoubleCreditScript(cmd, ids, at);
            var w := Chain(Chain(w0, script[..4]), script[4..]);
            && w.log == [first, second]
            && w.journals == [JournalOf(first), JournalOf(second)]
            && w.idempotency == map[cmd.key := RecordOf(first)]
  {
    var script := DoubleCreditScript(cmd, ids, at);
    BothRead(w0, cmd);
    var w4 := w0.(runs := [Run(cmd, Validating), Run(cmd, Validating)]);
    assert Chain(w0, script[..4]) == w4;
    BothValidate(w0, cmd, ids[0], ids[1], at);
    var w6 := w0.(runs := [Run(cmd, Writing(ids[0], at)), Run(cmd, Writing(ids[1], at))], drawn := {ids[0], ids[1]});
    BothWrite(w6, cmd, ids, at);
    assert w6.log == [];
  }

  lemma BothWrite(w: World, cmd: Command, ids: seq<Uuid>, at: int)
    requires |ids| == 6 && forall i, j :: 0 <= i < j < 6 ==> ids[i] != ids[j]
    requires !cmd.PostPayment? && w.drawn == {ids[0], ids[1]}
    requires w.runs == [Run(cmd, Writing(ids[0], at)), Run(cmd, Writing(ids[1], at))]
    ensures var first, second := Commit(cmd, ids[0], ids[0], ids[3], at), Commit(cmd, ids[1], ids[1], ids[5], at);
            var w' := Apply(Apply(w, Write(0, ids[2], ids[3], None)), Write(1, ids[4], ids[5], None));
            && w'.log == w.log + [first, second]
            && w'.journals == w.journals + [JournalOf(first), JournalOf(second)]
            && w'.idempotency == Put(w.idempotency, cmd.key, RecordOf(first))
  {
    CreditWrites(w, 0, ids[2], ids[3]);
    SecondWrite(Apply(w, Write(0, ids[2], ids[3], None)), cmd, ids[1], at, ids[4], ids[5]);
  }

  lemma SecondWrite(w: World, cmd: Command, id: Uuid, at: int, journalId: Uuid, eventId: Uuid)
    requires |w.runs| == 2 && w.runs[1] == Run(cmd, Writing(id, at)) && !cmd.PostPayment? && cmd.key in w.idempotency
    requires journalId !in w.drawn && eventId !in w.drawn && journalId != eventId
    ensures var c, w' := Commit(cmd, id, id, eventId, at), Apply(w, Write(1, journalId, eventId, None));
            && w'.log == w.log + [c] && w'.journals == w.journals + [JournalOf(c)] && w'.idempotency == w.idempotency
  {
    CreditWrites(w, 1, journalId, eventId);
  }

  lemma BothRead(w0: World, cmd: Command)
    requires w0.runs == [] && Exact(cmd.amount)
    ensures Apply(Apply(Apply(Apply(w0, Begin(cmd)), Begin(cmd)), Read(0, Absent)), Read(1, Absent))
         == w0.(runs := [Run(cmd, Validating), Run(cmd, Validating)])
  {
    var w2 := Apply(Apply(w0, Begin(cmd)), Begin(cmd));
    assert w2 == w0.(runs := [Run(cmd, Reading), Run(cmd, Reading)]);
    var w3 := Apply(w2, Read(0, Absent));
    assert w3 == w0.(runs := [Run(cmd, Validating), Run(cmd, Reading)]);
  }

  lemma BothValidate(w0: World, cmd: Command, a: Uuid, b: Uuid, at: int)
    requires w0.drawn == {} && a != b && !cmd.PostPayment?
    ensures Apply(Apply(w0.(runs := [Run(cmd, Validating), Run(cmd, Validating)]), Validate(0, Accepted, a, at)),
                  Validate(1, Accepted, b, at))
         == w0.(runs := [Run(cmd, Writing(a, at)), Run(cmd, Writing(b, at))], drawn := {a, b})
  {
    var w := w0.(runs := [Run(cmd, Validating), Run(cmd, Validating)]);
    var w1 := Apply(w, Validate(0, Accepted, a, at));
    assert w1 == w0.(runs := [Run(cmd, Writing(a, at)), Run(cmd, Validating)], drawn := {a});
  }

  lemma CreditWrites(w: World, r: nat, journalId: Uuid, eventId: Uuid)
    requires Enabled(w, Write(r, journalId, eventId, None)) && !w.runs[r].cmd.PostPayment?
    ensures var c := Commit(w.runs[r].cmd, w.runs[r].phase.id, w.runs[r].phase.id, eventId, w.runs[r].phase.at);
            var w' := Apply(w, Write(r, journalId, eventId, None));
            && w'.log == w.log + [c] && w'.journals == w.journals + [JournalOf(c)]
            && w'.idempotency == Put(w.idempotency, c.cmd.key, RecordOf(c))
            && w'.drawn == w.drawn + {c.id, c.eventId} && w'.runs == w.runs[r := Run(c.cmd, Done(Committed(c)))]
  {
  }

  function Chain(w: World, s: seq<Step>): World
    requires |s| == 4
  {
    Apply(Apply(Apply(Apply(w, s[0]), s[1]), s[2]), s[3])
  }

  lemma ExecFour(w: World, steps: seq<Step>, s: seq<Step>)
    requires |s| == 4
    ensures Exec(w, steps + s) == Chain(Exec(w, steps), s)
  {
    ExecAppend(w, steps, s[0]);
    ExecAppend(w, steps + [s[0]], s[1]);
    ExecAppend(w, steps + [s[0]] + [s[1]], s[2]);
    ExecAppend(w, steps + [s[0]] + [s[1]] + [s[2]], s[3]);
    assert steps + s == steps + [s[0]] + [s[1]] + [s[2]] + [s[3]];
  }

  lemma ScriptOfEight(w: World, s: seq<Step>)
    requires |s| == 8
    ensures Exec(w, s) == Chain(Chain(w, s[..4]), s[4..])
  {
    ExecFour(w, [], s[..4]);
    ExecFour(w, s[..4], s[4..]);
    assert [] + s[..4] == s[..4] && s[..4] + s[4..] == s;
  }

  // --- Replays ---------------------------------------------------------------------------------------

  /** A replayed result: that of the first call if it was of the same kind, and otherwise the status "posted"
      with a nil id, as the stored text has no field for the caller's id. */
  function ReplayedAs(cmd: Command, first: Commit): Response {
    if cmd.PostPayment? && first.cmd.PostPayment? then PaymentResult(first.id, "posted")
    else if cmd.PostPayment? then PaymentResult(NIL_UUID, "posted")
    else if first.cmd.PostPayment? then CreditResult(NIL_UUID, "posted")
    else CreditResult(first.journalId, "posted")
  }

  /** A call that sees the record of its key returns the result of the first commit under that key, as far as
      its own kind of result can hold it, and touches neither tables nor holds. */
  lemma ReplayReturnsFirstResult(w: World, r: nat) returns (n: nat)
    requires Reachable(w) && Enabled(w, Read(r, Found))
    ensures n < |w.log| && w.log[n].cmd.key == w.runs[r].cmd.key
    ensures forall i :: 0 <= i < n ==> w.log[i].cmd.key != w.runs[r].cmd.key
    ensures var w' := Apply(w, Read(r, Found));
            && SameTables(w, w') && w'.holds == w.holds && w'.balances == w.balances
            && w'.runs[r].phase == Done(Replayed(ReplayedAs(w.runs[r].cmd, w.log[n])))
  {
    ReachableInv(w);
    n := FirstUse(w.log, w.runs[r].cmd.key);
  }

  /** A finished call does nothing more. */
  lemma {:induction false} DoneIsFinal(w: World, steps: seq<Step>, r: nat)
    requires r < |w.runs| && w.runs[r].phase.Done?
    ensures var w' := Exec(w, steps); r < |w'.runs| && w'.runs[r] == w.runs[r]
    decreases |steps|
  {
    if steps != [] {
      DoneIsFinal(w, steps[..|steps| - 1], r);
      StepLeavesDone(Exec(w, steps[..|steps| - 1]), steps[|steps| - 1], r);
    }
  }

  lemma OthersLeaveRun(w: World, s: Step, r: nat)
    requires r < |w.runs| && !StepOf(s, r)
    ensures r < |Apply(w, s).runs| && Apply(w, s).runs[r] == w.runs[r]
  {
    match s
    case Begin(_) =>
    case Read(_, _) =>
    case Validate(_, _, _, _) =>
    case Reserve(_, _) =>
    case Write(_, _, _, _) =>
    case Release(_, _) =>
    case Fund(_, _) =>
  }

  lemma StepKeepsCommand(w: World, s: Step, r: nat)
    requires r < |w.runs|
    ensures r < |Apply(w, s).runs| && Apply(w, s).runs[r].cmd == w.runs[r].cmd
  {
    if !StepOf(s, r) {
      OthersLeaveRun(w, s, r);
    }
  }

  lemma StepLeavesDone(w: World, s: Step, r: nat)
    requires r < |w.runs| && w.runs[r].phase.Done?
    ensures r < |Apply(w, s).runs| && Apply(w, s).runs[r] == w.runs[r]
  {
    if StepOf(s, r) {
      assert !Enabled(w, s);
    } else {
      OthersLeaveRun(w, s, r);
    }
  }

  // --- Holds -----------------------------------------------------------------------------------------

  /** The outstanding holds are exactly those of the runs that hold funds, with their account and amount. */
  lemma HoldsAreExact(w: World, id: Uuid)
    requires Reachable(w)
    ensures id in w.holds <==> exists r: nat :: HeldBy(w, id, r)
    ensures forall r: nat :: HeldBy(w, id, r) ==>
              w.runs[r].cmd.PostPayment? && id in w.holds
              && w.holds[id] == Hold(w.runs[r].cmd.source, w.runs[r].cmd.amount.Value())
  {
    ReachableInv(w);
    if id in w.holds {
      assert Held(w, id);
    }
    forall r: nat | HeldBy(w, id, r)
      ensures id in w.holds && w.holds[id] == Hold(w.runs[r].cmd.source, w.runs[r].cmd.amount.Value())
    {
      RunIsSound(w, r);
    }
  }

  lemma CommittingRunHolds(w: World, c: Commit) returns (q: nat)
    requires RunsSound(w) && HasRun(w, c) && c.cmd.PostPayment?
    ensures q < |w.runs| && IdOf(w.runs[q]) == Some(c.id) && w.runs[q].phase == Done(Committed(c))
    ensures c.id in w.holds && w.holds[c.id] == Hold(c.cmd.source, c.cmd.amount.Value())
  {
    q :| CommittedBy(w, c, q);
    assert RunSound(w, w.runs[q]);
  }

  /** A committed payment keeps its hold, and a run in or after compensation never names it. */
  lemma CommittedHoldIsNeverReleased(w: World, p: Payment, r: nat)
    requires Reachable(w) && p in w.payments
    ensures p.holdId in w.holds && w.holds[p.holdId] == Hold(p.source, p.amount)
    ensures r < |w.runs| && (w.runs[r].phase.Compensating? || (w.runs[r].phase.Done? && w.runs[r].phase.outcome.Compensated?))
            ==> IdOf(w.runs[r]) != Some(p.holdId)
  {
    ReachableInv(w);
    var i := PaymentIsCommitted(w.log, p);
    var q := CommittingRunHolds(w, w.log[i]);
    if r < |w.runs| {
      SameIdSameRun(w, q, r);
    }
  }

  lemma SameIdSameRun(w: World, q: nat, r: nat)
    requires RunsSound(w) && q < |w.runs| && r < |w.runs|
    ensures IdOf(w.runs[q]).Some? && IdOf(w.runs[q]) == IdOf(w.runs[r]) ==> q == r
  {
  }

  lemma {:induction false} TakenAtLeast(runs: seq<Run>, a: Uuid)
    requires forall r :: 0 <= r < |runs| && HoldsFunds(runs[r]) ==> runs[r].cmd.amount.Value() > 0.0
    ensures Taken(runs, a) >= 0.0
    ensures forall r :: 0 <= r < |runs| ==> Taken(runs, a) >= Share(runs[r], a)
    decreases |runs|
  {
    if runs != [] {
      TakenAtLeast(runs[..|runs| - 1], a);
      assert forall r :: 0 <= r < |runs| - 1 ==> runs[r] == runs[..|runs| - 1][r];
    }
  }

  /** Accounts keeps sums, not ids, and that is enough: each counter is the sum over the runs that hold
      funds there, nothing is overdrawn, and a compensation never finds too little to release. */
  lemma CountersCoverEveryRelease(w: World, r: nat, a: Uuid)
    requires Reachable(w)
    ensures a in w.balances ==> w.balances[a].hold == Taken(w.runs, a) >= 0.0 && w.balances[a].available >= 0.0
    ensures r < |w.runs| && w.runs[r].phase.Compensating? ==>
              w.runs[r].cmd.PostPayment? && CanRelease(w, w.runs[r].cmd.source, w.runs[r].cmd.amount.Value())
  {
    ReachableInv(w);
    forall q | 0 <= q < |w.runs| && HoldsFunds(w.runs[q])
      ensures w.runs[q].cmd.amount.Value() > 0.0
    {
      RunIsSound(w, q);
    }
    TakenAtLeast(w.runs, a);
    if r < |w.runs| && w.runs[r].phase.Compensating? {
      RunIsSound(w, r);
      TakenAtLeast(w.runs, w.runs[r].cmd.source);
      assert HoldsFunds(w.runs[r]);
      assert Share(w.runs[r], w.runs[r].cmd.source) == w.runs[r].cmd.amount.Value();
    }
  }

  /** Reserving and releasing only move money between available and hold. */
  lemma FundsAreConserved(w: World, s: Step, a: Uuid)
    requires a in w.balances
    ensures var w' := Apply(w, s);
            && a in w'.balances
            && w'.balances[a].available + w'.balances[a].hold
            == w.balances[a].available + w.balances[a].hold
             + if s.Fund? && Enabled(w, s) && s.account == a then s.amount else 0.0
  {
    match s
    case Begin(_) =>
    case Read(_, _) =>
    case Validate(_, _, _, _) =>
    case Reserve(_, _) =>
    case Write(_, _, _, _) =>
    case Release(_, _) =>
    case Fund(_, _) =>
  }
}
