/** What every step of every interleaving keeps. */
module LedgerInvariant {
  import opened Common
  import opened Decimals
  import opened Entities
  import opened LedgerSteps

  // --- The four tables are projections of one history ------------------------------------------

  function PaymentsOf(log: seq<Commit>): seq<Payment> {
    if log == [] then []
    else
      var c := log[|log| - 1];
      var earlier := PaymentsOf(log[..|log| - 1]);
      if c.cmd.PostPayment? then earlier + [PaymentOf(c)] else earlier
  }

  function JournalsOf(log: seq<Commit>): (js: seq<JournalEntry>)
    ensures |js| == |log| && forall i :: 0 <= i < |log| ==> js[i] == JournalOf(log[i])
  {
    seq(|log|, i requires 0 <= i < |log| => JournalOf(log[i]))
  }

  function EventsOf(log: seq<Commit>): (es: seq<OutboxEvent>)
    ensures |es| == |log| && forall i :: 0 <= i < |log| ==> es[i] == EventOf(log[i])
  {
    seq(|log|, i requires 0 <= i < |log| => EventOf(log[i]))
  }

  /** The record of a key is that of the first commit that used it. */
  function RecordsOf(log: seq<Commit>): map<string, IdempotencyRecord> {
    if log == [] then map[]
    else
      var c := log[|log| - 1];
      Put(RecordsOf(log[..|log| - 1]), c.cmd.key, RecordOf(c))
  }

  ghost predicate TablesFollowLog(w: World) {
    && w.payments == PaymentsOf(w.log)
    && w.journals == JournalsOf(w.log)
    && w.outbox == EventsOf(w.log)
    && w.idempotency == RecordsOf(w.log)
  }

  // --- Commits and runs ------------------------------------------------------------------------

  ghost predicate Distinct(a: Commit, b: Commit) {
    && a.id != b.id && a.journalId != b.journalId && a.eventId != b.eventId
    && (a.cmd.PostPayment? && b.cmd.PostPayment? ==> a.cmd.key != b.cmd.key)
  }

  ghost predicate CommitSound(w: World, c: Commit) {
    && {c.id, c.journalId, c.eventId} <= w.drawn
    && (c.cmd.PostPayment? ==> c.cmd.customer.Some?)
    && (!c.cmd.PostPayment? ==> c.id == c.journalId)
    && Exact(c.cmd.amount)
  }

  ghost predicate LogSound(w: World) {
    && (forall i :: 0 <= i < |w.log| ==> CommitSound(w, w.log[i]))
    && (forall i, j :: 0 <= i < j < |w.log| ==> Distinct(w.log[i], w.log[j]))
  }

  /** The payment or journal id a run has drawn. */
  function IdOf(run: Run): Option<Uuid> {
    match run.phase
    case Reading => None
    case Validating => None
    case Reserving(id, _) => Some(id)
    case Writing(id, _) => Some(id)
    case Compensating(id) => Some(id)
    case Done(Rejected) => None
    case Done(Replayed(_)) => None
    case Done(ReserveFailed(id, _)) => Some(id)
    case Done(Committed(c)) => Some(c.id)
    case Done(Compensated(id, _)) => Some(id)
    case Done(CreditFailed(id)) => Some(id)
  }

  /** A payment run holds funds from its reserve to the end of its compensation, once it has committed,
      if its release failed, and if its reserve took effect although it reported an error. */
  predicate HoldsFunds(run: Run) {
    run.cmd.PostPayment? &&
    match run.phase
    case Writing(_, _) => true
    case Compensating(_) => true
    case Done(ReserveFailed(_, taken)) => taken
    case Done(Committed(_)) => true
    case Done(Compensated(_, released)) => !released
    case _ => false
  }

  ghost predicate RunSound(w: World, run: Run) {
    && (IdOf(run).Some? ==> IdOf(run).value in w.drawn)
    && (run.phase != Done(Rejected) ==> Exact(run.cmd.amount))
    && (run.phase.Compensating? || run.phase.Reserving? ==> run.cmd.PostPayment?)
    && (run.cmd.PostPayment? && IdOf(run).Some? ==> run.cmd.customer.Some?)
    && (HoldsFunds(run) ==>
          var id := IdOf(run).value;
          && id in w.holds && w.holds[id] == Hold(run.cmd.source, run.cmd.amount.Value())
          && run.cmd.amount.Value() > 0.0 && run.cmd.source in w.balances)
    && (run.phase.Done? && run.phase.outcome.Committed? ==>
          run.phase.outcome.commit in w.log && run.phase.outcome.commit.cmd == run.cmd)
  }

  ghost predicate RunsSound(w: World) {
    && (forall r :: 0 <= r < |w.runs| ==> RunSound(w, w.runs[r]))
    && (forall r, q :: 0 <= r < q < |w.runs| && IdOf(w.runs[r]).Some? && IdOf(w.runs[q]).Some? ==>
          IdOf(w.runs[r]) != IdOf(w.runs[q]))
  }

  /** The journal ids payments drew inside their transaction differ from every id drawn by a run. */
  ghost predicate JournalIdsApart(w: World) {
    forall r, i :: 0 <= r < |w.runs| && 0 <= i < |w.log| && w.log[i].cmd.PostPayment? ==>
      IdOf(w.runs[r]) != Some(w.log[i].journalId)
  }

  ghost predicate HeldBy(w: World, id: Uuid, r: nat) {
    r < |w.runs| && HoldsFunds(w.runs[r]) && IdOf(w.runs[r]) == Some(id)
  }

  ghost predicate CommittedBy(w: World, c: Commit, r: nat) {
    r < |w.runs| && w.runs[r].phase == Done(Committed(c))
  }

  ghost predicate Held(w: World, id: Uuid) {
    exists r: nat :: HeldBy(w, id, r)
  }

  ghost predicate HasRun(w: World, c: Commit) {
    exists r: nat :: CommittedBy(w, c, r)
  }

  ghost predicate Accounted(w: World) {
    && (forall id :: id in w.holds ==> Held(w, id))
    && (forall i :: 0 <= i < |w.log| ==> HasRun(w, w.log[i]))
  }

  // --- Accounts' counters ----------------------------------------------------------------------

  /** What the hold-taking runs have taken from one account. */
  function Taken(runs: seq<Run>, account: Uuid): real {
    if runs == [] then 0.0
    else Taken(runs[..|runs| - 1], account) + Share(runs[|runs| - 1], account)
  }

  function Share(run: Run, account: Uuid): real {
    if HoldsFunds(run) && run.cmd.source == account then run.cmd.amount.Value() else 0.0
  }

  ghost predicate CountersMatch(w: World) {
    forall a :: a in w.balances ==> w.balances[a].hold == Taken(w.runs, a) && w.balances[a].available >= 0.0
  }

  ghost predicate Inv(w: World) {
    TablesFollowLog(w) && LogSound(w) && RunsSound(w) && JournalIdsApart(w) && Accounted(w) && CountersMatch(w)
  }

  // --- Preservation: one run changes its phase ---------------------------------------------------

  /** Everything the other runs rely on is still there. */
  ghost predicate Keeps(w: World, w': World, dropped: Option<Uuid>) {
    && w.drawn <= w'.drawn && w.log <= w'.log && w.balances.Keys <= w'.balances.Keys
    && forall id :: id in w.holds && Some(id) != dropped ==> id in w'.holds && w'.holds[id] == w.holds[id]
  }

  lemma RunsAfterChange(w: World, w': World, r: nat, dropped: Option<Uuid>)
    requires RunsSound(w) && r < |w.runs| && |w'.runs| == |w.runs| && Keeps(w, w', dropped)
    requires w'.runs == w.runs[r := w'.runs[r]]
    requires RunSound(w', w'.runs[r])
    requires dropped.Some? ==> dropped == IdOf(w.runs[r])
    requires IdOf(w'.runs[r]).Some? ==> IdOf(w'.runs[r]) == IdOf(w.runs[r]) || IdOf(w'.runs[r]).value !in w.drawn
    ensures RunsSound(w')
  {
    forall q | 0 <= q < |w'.runs|
      ensures RunSound(w', w'.runs[q])
    {
      if q != r {
        assert RunSound(w, w.runs[q]);
        assert w'.runs[q] == w.runs[q];
      }
    }
    forall p, q | 0 <= p < q < |w'.runs| && IdOf(w'.runs[p]).Some? && IdOf(w'.runs[q]).Some?
      ensures IdOf(w'.runs[p]) != IdOf(w'.runs[q])
    {
      assert RunSound(w, w.runs[p]) && RunSound(w, w.runs[q]);
    }
  }

  lemma {:induction false} TakenAfterChange(runs: seq<Run>, r: nat, run: Run, a: Uuid)
    requires r < |runs|
    ensures Taken(runs[r := run], a) == Taken(runs, a) - Share(runs[r], a) + Share(run, a)
    decreases |runs|
  {
    var n := |runs| - 1;
    if r == n {
      assert runs[r := run][..n] == runs[..n];
    } else {
      assert runs[r := run][..n] == runs[..n][r := run];
      TakenAfterChange(runs[..n], r, run, a);
    }
  }

  ghost predicate SameTables(w: World, w': World) {
    && w'.payments == w.payments && w'.journals == w.journals && w'.outbox == w.outbox
    && w'.idempotency == w.idempotency && w'.log == w.log
  }

  ghost predicate OneRunMoves(w: World, w': World, r: nat) {
    && r < |w.runs| && |w'.runs| == |w.runs| && w'.runs == w.runs[r := w'.runs[r]]
    && !w.runs[r].phase.Done? && w'.runs[r].cmd == w.runs[r].cmd
    && (IdOf(w'.runs[r]).Some? ==> IdOf(w'.runs[r]) == IdOf(w.runs[r]) || IdOf(w'.runs[r]).value !in w.drawn)
  }

  lemma CommitsStay(w: World, w': World, r: nat)
    requires Accounted(w) && OneRunMoves(w, w', r) && w'.log == w.log
    ensures forall i :: 0 <= i < |w'.log| ==> HasRun(w', w'.log[i])
  {
    forall i | 0 <= i < |w'.log|
      ensures HasRun(w', w'.log[i])
    {
      RunStays(w, w', r, w.log[i]);
    }
  }

  lemma RunStays(w: World, w': World, r: nat, c: Commit)
    requires HasRun(w, c) && OneRunMoves(w, w', r)
    ensures HasRun(w', c)
  {
    var q: nat :| CommittedBy(w, c, q);
    assert CommittedBy(w', c, q);
  }

  lemma HolderStays(w: World, w': World, r: nat, id: Uuid)
    requires Held(w, id) && OneRunMoves(w, w', r)
    requires HeldBy(w, id, r) ==> HeldBy(w', id, r)
    ensures Held(w', id)
  {
    var q: nat :| HeldBy(w, id, q);
    assert HeldBy(w', id, q);
  }

  lemma LogStays(w: World, w': World)
    requires LogSound(w) && w'.log == w.log && w.drawn <= w'.drawn
    ensures LogSound(w')
  {
    forall i | 0 <= i < |w'.log|
      ensures CommitSound(w', w'.log[i])
    {
      assert CommitSound(w, w.log[i]);
    }
  }

  lemma JournalIdsStayApart(w: World, w': World, r: nat)
    requires LogSound(w) && JournalIdsApart(w) && OneRunMoves(w, w', r) && w'.log == w.log
    ensures JournalIdsApart(w')
  {
    forall q, i | 0 <= q < |w'.runs| && 0 <= i < |w'.log| && w'.log[i].cmd.PostPayment?
      ensures IdOf(w'.runs[q]) != Some(w'.log[i].journalId)
    {
      assert CommitSound(w, w.log[i]);
      assert IdOf(w.runs[q]) != Some(w.log[i].journalId);
    }
  }

  lemma CountersStay(w: World, w': World, r: nat)
    requires CountersMatch(w) && OneRunMoves(w, w', r) && w'.balances == w.balances
    requires HoldsFunds(w'.runs[r]) == HoldsFunds(w.runs[r])
    ensures CountersMatch(w')
  {
    forall a | a in w'.balances
      ensures w'.balances[a].hold == Taken(w'.runs, a)
    {
      TakenAfterChange(w.runs, r, w'.runs[r], a);
    }
  }

  /** A run moves on without touching a table or Accounts. */
  ghost predicate Moves(w: World, w': World, r: nat) {
    && OneRunMoves(w, w', r) && SameTables(w, w')
    && w'.holds == w.holds && w'.balances == w.balances && w.drawn <= w'.drawn
    && RunSound(w', w'.runs[r])
    && HoldsFunds(w'.runs[r]) == HoldsFunds(w.runs[r])
    && (HoldsFunds(w.runs[r]) ==> IdOf(w'.runs[r]) == IdOf(w.runs[r]))
  }

  lemma MoveKeepsInv(w: World, w': World, r: nat)
    requires Inv(w) && Moves(w, w', r)
    ensures Inv(w')
  {
    LogStays(w, w');
    RunsAfterChange(w, w', r, None);
    CommitsStay(w, w', r);
    forall id | id in w'.holds
      ensures Held(w', id)
    {
      HolderStays(w, w', r, id);
    }
    JournalIdsStayApart(w, w', r);
    CountersStay(w, w', r);
  }

  lemma RunsAfterBegin(w: World, run: Run)
    requires RunsSound(w) && RunSound(w, run) && IdOf(run).None?
    ensures RunsSound(w.(runs := w.runs + [run]))
  {
    var w' := w.(runs := w.runs + [run]);
    forall q | 0 <= q < |w'.runs|
      ensures RunSound(w', w'.runs[q])
    {
      assert RunSound(w, w'.runs[q]);
    }
  }

  lemma AccountedAfterBegin(w: World, run: Run)
    requires Accounted(w)
    ensures Accounted(w.(runs := w.runs + [run]))
  {
    var w' := w.(runs := w.runs + [run]);
    forall i | 0 <= i < |w'.log|
      ensures HasRun(w', w'.log[i])
    {
      var q: nat :| CommittedBy(w, w.log[i], q);
      assert CommittedBy(w', w'.log[i], q);
    }
    forall id | id in w'.holds
      ensures Held(w', id)
    {
      var q: nat :| HeldBy(w, id, q);
      assert HeldBy(w', id, q);
    }
  }

  lemma CountersAfterBegin(w: World, run: Run)
    requires CountersMatch(w) && !HoldsFunds(run)
    ensures CountersMatch(w.(runs := w.runs + [run]))
  {
    assert (w.runs + [run])[..|w.runs|] == w.runs;
  }

  lemma ApartAfterBegin(w: World, run: Run)
    requires JournalIdsApart(w) && IdOf(run).None?
    ensures JournalIdsApart(w.(runs := w.runs + [run]))
  {
  }

  lemma BeginKeepsInv(w: World, run: Run)
    requires Inv(w) && RunSound(w, run) && IdOf(run).None?
    ensures Inv(w.(runs := w.runs + [run]))
  {
    var w' := w.(runs := w.runs + [run]);
    RunsAfterBegin(w, run);
    AccountedAfterBegin(w, run);
    CountersAfterBegin(w, run);
    ApartAfterBegin(w, run);
    LogStays(w, w');
  }

  lemma ReadMoves(w: World, r: nat, found: ReadReply)
    requires Enabled(w, Read(r, found)) && RunSound(w, w.runs[r])
    ensures Moves(w, AfterRead(w, r, found), r)
  {
  }

  lemma ValidateMoves(w: World, r: nat, verdict: Verdict, id: Uuid, at: int)
    requires Enabled(w, Validate(r, verdict, id, at)) && RunSound(w, w.runs[r])
    ensures Moves(w, AfterValidate(w, r, verdict, id, at), r)
  {
  }

  lemma FailedReserveMoves(w: World, r: nat, reply: ReserveReply)
    requires Enabled(w, Reserve(r, reply)) && RunSound(w, w.runs[r])
    requires reply in {Declined, ErrorBeforeHold}
    ensures Moves(w, AfterReserve(w, r, reply), r)
  {
  }

  lemma FailedWriteMoves(w: World, r: nat, journalId: Uuid, eventId: Uuid, fault: Option<WriteCall>)
    requires Enabled(w, Write(r, journalId, eventId, fault)) && RunSound(w, w.runs[r])
    requires WriteFails(w, w.runs[r].cmd, w.runs[r].phase.id, fault)
    ensures Moves(w, AfterWrite(w, r, journalId, eventId, fault), r)
  {
  }

  lemma FailedReleaseMoves(w: World, r: nat)
    requires Enabled(w, Release(r, false)) && RunSound(w, w.runs[r])
    ensures Moves(w, AfterRelease(w, r, false), r)
  {
  }

  // --- Preservation: holds ------------------------------------------------------------------------

  lemma HolderIs(w: World, r: nat, id: Uuid)
    requires RunsSound(w) && Held(w, id) && r < |w.runs| && IdOf(w.runs[r]) == Some(id)
    ensures HoldsFunds(w.runs[r])
  {
    var q: nat :| HeldBy(w, id, q);
  }

  ghost predicate Takes(w: World, w': World, r: nat, id: Uuid) {
    && OneRunMoves(w, w', r) && SameTables(w, w') && w'.drawn == w.drawn
    && w.runs[r].cmd.PostPayment?
    && var account, amount := w.runs[r].cmd.source, w.runs[r].cmd.amount.Value();
    && CanReserve(w, account, amount)
    && w'.balances == TakeHold(w, id, account, amount).balances
    && w'.holds == TakeHold(w, id, account, amount).holds
    && !HoldsFunds(w.runs[r]) && HoldsFunds(w'.runs[r])
    && IdOf(w.runs[r]) == IdOf(w'.runs[r]) == Some(id)
    && RunSound(w', w'.runs[r])
  }

  ghost predicate Drops(w: World, w': World, r: nat, id: Uuid) {
    && OneRunMoves(w, w', r) && SameTables(w, w') && w'.drawn == w.drawn
    && w.runs[r].cmd.PostPayment?
    && var account, amount := w.runs[r].cmd.source, w.runs[r].cmd.amount.Value();
    && CanRelease(w, account, amount)
    && w'.balances == DropHold(w, id, account, amount).balances
    && w'.holds == DropHold(w, id, account, amount).holds
    && HoldsFunds(w.runs[r]) && !HoldsFunds(w'.runs[r])
    && IdOf(w.runs[r]) == IdOf(w'.runs[r]) == Some(id)
    && RunSound(w', w'.runs[r])
  }

  lemma HoldersAfterTransfer(w: World, w': World, r: nat, id: Uuid)
    requires Accounted(w) && (Takes(w, w', r, id) || Drops(w, w', r, id))
    ensures forall h :: h in w'.holds ==> Held(w', h)
  {
    forall h | h in w'.holds
      ensures Held(w', h)
    {
      if h == id {
        assert HeldBy(w', id, r);
      } else {
        HolderStays(w, w', r, h);
      }
    }
  }

  lemma CountersAfterTransfer(w: World, w': World, r: nat, id: Uuid)
    requires CountersMatch(w) && (Takes(w, w', r, id) || Drops(w, w', r, id))
    ensures CountersMatch(w')
  {
    forall a | a in w'.balances
      ensures w'.balances[a].hold == Taken(w'.runs, a) && w'.balances[a].available >= 0.0
    {
      TakenAfterChange(w.runs, r, w'.runs[r], a);
    }
  }

  lemma TakenHoldIsNew(w: World, w': World, r: nat, id: Uuid)
    requires RunsSound(w) && Accounted(w) && (Takes(w, w', r, id) || Drops(w, w', r, id))
    ensures Takes(w, w', r, id) ==> id !in w.holds
  {
    if id in w.holds {
      HolderIs(w, r, id);
    }
  }

  lemma TransferKeepsRuns(w: World, w': World, r: nat, id: Uuid)
    requires RunsSound(w) && Accounted(w) && (Takes(w, w', r, id) || Drops(w, w', r, id))
    ensures RunsSound(w')
  {
    TakenHoldIsNew(w, w', r, id);
    RunsAfterChange(w, w', r, if id in w.holds then Some(id) else None);
  }

  lemma TransferKeepsInv(w: World, w': World, r: nat, id: Uuid)
    requires Inv(w) && (Takes(w, w', r, id) || Drops(w, w', r, id))
    ensures Inv(w')
  {
    LogStays(w, w');
    TransferKeepsRuns(w, w', r, id);
    CommitsStay(w, w', r);
    JournalIdsStayApart(w, w', r);
    HoldersAfterTransfer(w, w', r, id);
    CountersAfterTransfer(w, w', r, id);
  }

  lemma ReserveTakes(w: World, r: nat, reply: ReserveReply)
    requires Enabled(w, Reserve(r, reply)) && RunSound(w, w.runs[r])
    requires reply in {Reserved, ErrorAfterHold}
    ensures Takes(w, AfterReserve(w, r, reply), r, w.runs[r].phase.id)
  {
  }

  lemma ReleaseDrops(w: World, r: nat)
    requires Enabled(w, Release(r, true)) && RunSound(w, w.runs[r])
    ensures Drops(w, AfterRelease(w, r, true), r, w.runs[r].phase.id)
  {
  }

  lemma SameRunsKeepRunsSound(w: World, w': World)
    requires RunsSound(w) && w'.runs == w.runs && Keeps(w, w', None)
    ensures RunsSound(w')
  {
    forall r | 0 <= r < |w'.runs|
      ensures RunSound(w', w'.runs[r])
    {
      assert RunSound(w, w.runs[r]);
    }
  }

  lemma SameRunsKeepAccounted(w: World, w': World)
    requires Accounted(w) && w'.runs == w.runs && w'.log == w.log && w'.holds == w.holds
    ensures Accounted(w')
  {
    forall i | 0 <= i < |w'.log|
      ensures HasRun(w', w'.log[i])
    {
      var q: nat :| CommittedBy(w, w.log[i], q);
      assert CommittedBy(w', w'.log[i], q);
    }
    forall id | id in w'.holds
      ensures Held(w', id)
    {
      var q: nat :| HeldBy(w, id, q);
      assert HeldBy(w', id, q);
    }
  }

  lemma CountersAfterFund(w: World, account: Uuid, amount: real)
    requires CountersMatch(w) && account in w.balances && amount > 0.0
    ensures CountersMatch(AfterFund(w, account, amount))
  {
  }

  lemma FundKeepsInv(w: World, account: Uuid, amount: real)
    requires Inv(w) && account in w.balances && amount > 0.0
    ensures Inv(AfterFund(w, account, amount))
  {
    var w' := AfterFund(w, account, amount);
    LogStays(w, w');
    SameRunsKeepRunsSound(w, w');
    SameRunsKeepAccounted(w, w');
    CountersAfterFund(w, account, amount);
  }

  // --- Preservation: a commit ----------------------------------------------------------------------

  lemma {:induction false} PaymentKeys(log: seq<Commit>, key: string)
    ensures HasPaymentKey(PaymentsOf(log), key) <==>
            exists i :: 0 <= i < |log| && log[i].cmd.PostPayment? && log[i].cmd.key == key
  {
    if log != [] {
      var n := |log| - 1;
      PaymentKeys(log[..n], key);
      var ps, qs := PaymentsOf(log[..n]), PaymentsOf(log);
      assert ps <= qs;
      if HasPaymentKey(ps, key) {
        var i :| 0 <= i < |ps| && ps[i].key == key;
        assert qs[i].key == key;
      }
      if log[n].cmd.PostPayment? {
        assert qs[|ps|].key == log[n].cmd.key;
      }
    }
  }

  lemma TablesAfterAdd(w: World, c: Commit)
    requires TablesFollowLog(w)
    ensures TablesFollowLog(AddRows(w, c))
  {
    assert (w.log + [c])[..|w.log|] == w.log;
  }

  lemma CommittedElsewhere(w: World, r: nat, c: Commit)
    requires RunsSound(w) && HasRun(w, c) && r < |w.runs| && w.runs[r].phase.Writing?
    ensures c.id != w.runs[r].phase.id
  {
    var q: nat :| CommittedBy(w, c, q);
  }

  lemma KeyNotPaid(w: World, i: nat, key: string)
    requires i < |w.log| && w.payments == PaymentsOf(w.log)
    ensures w.log[i].cmd.PostPayment? && !HasPaymentKey(w.payments, key) ==> w.log[i].cmd.key != key
  {
    PaymentKeys(w.log, key);
  }

  /** What a write adds is apart from everything committed before. */
  lemma NewCommitIsDistinct(w: World, r: nat, journalId: Uuid, eventId: Uuid, i: nat)
    requires Inv(w) && Enabled(w, Write(r, journalId, eventId, None)) && i < |w.log|
    requires !WriteFails(w, w.runs[r].cmd, w.runs[r].phase.id, None)
    ensures Distinct(w.log[i], Attempt(w.runs[r], journalId, eventId))
  {
    assert CommitSound(w, w.log[i]);
    assert IdOf(w.runs[r]) == Some(w.runs[r].phase.id);
    CommittedElsewhere(w, r, w.log[i]);
    KeyNotPaid(w, i, w.runs[r].cmd.key);
  }

  lemma LogAfterAdd(w: World, w': World, c: Commit)
    requires LogSound(w) && w'.log == w.log + [c] && w.drawn <= w'.drawn
    requires CommitSound(w', c) && forall i :: 0 <= i < |w.log| ==> Distinct(w.log[i], c)
    ensures LogSound(w')
  {
    forall i | 0 <= i < |w'.log|
      ensures CommitSound(w', w'.log[i])
    {
      assert i < |w.log| ==> CommitSound(w, w.log[i]);
    }
  }

  lemma ApartAfterAdd(w: World, w': World, r: nat, c: Commit)
    requires RunsSound(w) && JournalIdsApart(w) && r < |w.runs| && |w'.runs| == |w.runs|
    requires w'.log == w.log + [c] && w'.runs == w.runs[r := w'.runs[r]] && IdOf(w'.runs[r]) == IdOf(w.runs[r])
    requires c.cmd.PostPayment? ==> c.journalId !in w.drawn
    ensures JournalIdsApart(w')
  {
    forall q, i | 0 <= q < |w'.runs| && 0 <= i < |w'.log| && w'.log[i].cmd.PostPayment?
      ensures IdOf(w'.runs[q]) != Some(w'.log[i].journalId)
    {
      assert IdOf(w'.runs[q]) == IdOf(w.runs[q]);
      assert RunSound(w, w.runs[q]);
    }
  }

  lemma AccountedAfterAdd(w: World, w': World, r: nat, c: Commit)
    requires Accounted(w) && OneRunMoves(w, w', r) && w'.log == w.log + [c] && w'.holds == w.holds
    requires w'.runs[r].phase == Done(Committed(c))
    requires HoldsFunds(w.runs[r]) ==> HoldsFunds(w'.runs[r]) && IdOf(w'.runs[r]) == IdOf(w.runs[r])
    ensures Accounted(w')
  {
    forall i | 0 <= i < |w'.log|
      ensures HasRun(w', w'.log[i])
    {
      if i < |w.log| {
        RunStays(w, w', r, w.log[i]);
      } else {
        assert CommittedBy(w', c, r);
      }
    }
    forall id | id in w'.holds
      ensures Held(w', id)
    {
      HolderStays(w, w', r, id);
    }
  }

  lemma CommitRunSound(w: World, w': World, r: nat, journalId: Uuid, eventId: Uuid)
    requires Enabled(w, Write(r, journalId, eventId, None)) && RunSound(w, w.runs[r])
    requires !WriteFails(w, w.runs[r].cmd, w.runs[r].phase.id, None)
    requires w' == AfterWrite(w, r, journalId, eventId, None)
    ensures OneRunMoves(w, w', r) && RunSound(w', w'.runs[r]) && Keeps(w, w', None)
    ensures HoldsFunds(w'.runs[r]) == HoldsFunds(w.runs[r]) && IdOf(w'.runs[r]) == IdOf(w.runs[r])
    ensures w'.runs[r].phase == Done(Committed(Attempt(w.runs[r], journalId, eventId)))
    ensures CommitSound(w', Attempt(w.runs[r], journalId, eventId))
  {
  }

  lemma CommitKeepsInv(w: World, r: nat, journalId: Uuid, eventId: Uuid)
    requires Inv(w) && Enabled(w, Write(r, journalId, eventId, None))
    requires !WriteFails(w, w.runs[r].cmd, w.runs[r].phase.id, None)
    ensures Inv(AfterWrite(w, r, journalId, eventId, None))
  {
    var c := Attempt(w.runs[r], journalId, eventId);
    var w' := AfterWrite(w, r, journalId, eventId, None);
    assert RunSound(w, w.runs[r]);
    CommitRunSound(w, w', r, journalId, eventId);
    TablesAfterAdd(w, c);
    forall i | 0 <= i < |w.log|
      ensures Distinct(w.log[i], c)
    {
      NewCommitIsDistinct(w, r, journalId, eventId, i);
    }
    LogAfterAdd(w, w', c);
    RunsAfterChange(w, w', r, None);
    ApartAfterAdd(w, w', r, c);
    AccountedAfterAdd(w, w', r, c);
    CountersStay(w, w', r);
  }

  // --- Every step, every run -------------------------------------------------------------------------

  lemma RunIsSound(w: World, r: nat)
    requires Inv(w) && r < |w.runs|
    ensures RunSound(w, w.runs[r])
  {
  }

  lemma ReadKeepsInv(w: World, r: nat, found: ReadReply)
    requires Inv(w) && Enabled(w, Read(r, found))
    ensures Inv(AfterRead(w, r, found))
  {
    RunIsSound(w, r);
    ReadMoves(w, r, found);
    MoveKeepsInv(w, AfterRead(w, r, found), r);
  }

  lemma ValidateKeepsInv(w: World, r: nat, verdict: Verdict, id: Uuid, at: int)
    requires Inv(w) && Enabled(w, Validate(r, verdict, id, at))
    ensures Inv(AfterValidate(w, r, verdict, id, at))
  {
    RunIsSound(w, r);
    ValidateMoves(w, r, verdict, id, at);
    MoveKeepsInv(w, AfterValidate(w, r, verdict, id, at), r);
  }

  lemma ReserveKeepsInv(w: World, r: nat, reply: ReserveReply)
    requires Inv(w) && Enabled(w, Reserve(r, reply))
    ensures Inv(AfterReserve(w, r, reply))
  {
    RunIsSound(w, r);
    if reply in {Reserved, ErrorAfterHold} {
      ReserveTakes(w, r, reply);
      TransferKeepsInv(w, AfterReserve(w, r, reply), r, w.runs[r].phase.id);
    } else {
      FailedReserveMoves(w, r, reply);
      MoveKeepsInv(w, AfterReserve(w, r, reply), r);
    }
  }

  lemma WriteKeepsInv(w: World, r: nat, journalId: Uuid, eventId: Uuid, fault: Option<WriteCall>)
    requires Inv(w) && Enabled(w, Write(r, journalId, eventId, fault))
    ensures Inv(AfterWrite(w, r, journalId, eventId, fault))
  {
    RunIsSound(w, r);
    if WriteFails(w, w.runs[r].cmd, w.runs[r].phase.id, fault) {
      FailedWriteMoves(w, r, journalId, eventId, fault);
      MoveKeepsInv(w, AfterWrite(w, r, journalId, eventId, fault), r);
    } else {
      CommitKeepsInv(w, r, journalId, eventId);
    }
  }

  lemma ReleaseKeepsInv(w: World, r: nat, released: bool)
    requires Inv(w) && Enabled(w, Release(r, released))
    ensures Inv(AfterRelease(w, r, released))
  {
    RunIsSound(w, r);
    if released {
      ReleaseDrops(w, r);
      TransferKeepsInv(w, AfterRelease(w, r, released), r, w.runs[r].phase.id);
    } else {
      FailedReleaseMoves(w, r);
      MoveKeepsInv(w, AfterRelease(w, r, released), r);
    }
  }

  lemma EarlyStepKeepsInv(w: World, s: Step)
    requires Inv(w) && Enabled(w, s) && (s.Read? || s.Validate? || s.Reserve?)
    ensures Inv(Apply(w, s))
  {
    match s
    case Read(r, found) => ReadKeepsInv(w, r, found);
    case Validate(r, verdict, id, at) => ValidateKeepsInv(w, r, verdict, id, at);
    case Reserve(r, reply) => ReserveKeepsInv(w, r, reply);
  }

  lemma LateStepKeepsInv(w: World, s: Step)
    requires Inv(w) && Enabled(w, s) && (s.Write? || s.Release?)
    ensures Inv(Apply(w, s))
  {
    match s
    case Write(r, journalId, eventId, fault) => WriteKeepsInv(w, r, journalId, eventId, fault);
    case Release(r, released) => ReleaseKeepsInv(w, r, released);
  }

  /** Every call of every run keeps the invariant, whatever fails. */
  lemma StepKeepsInv(w: World, s: Step)
    requires Inv(w)
    ensures Inv(Apply(w, s))
  {
    if Enabled(w, s) {
      match s
      case Begin(cmd) => BeginKeepsInv(w, Run(cmd, if Exact(cmd.amount) then Reading else Done(Rejected)));
      case Fund(account, amount) => FundKeepsInv(w, account, amount);
      case Write(_, _, _, _) => LateStepKeepsInv(w, s);
      case Release(_, _) => LateStepKeepsInv(w, s);
      case _ => EarlyStepKeepsInv(w, s);
    }
  }

  /** The invariant holds after any interleaving of any runs with any failures. */
  lemma {:induction false} RunKeepsInv(w: World, steps: seq<Step>)
    requires Inv(w)
    ensures Inv(Exec(w, steps))
    decreases |steps|
  {
    if steps != [] {
      RunKeepsInv(w, steps[..|steps| - 1]);
      StepKeepsInv(Exec(w, steps[..|steps| - 1]), steps[|steps| - 1]);
    }
  }

  lemma InitialInv(w: World)
    requires Initial(w)
    ensures Inv(w)
  {
  }
}
