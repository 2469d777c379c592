/** What must have happened before a run books: every call of its operation, in order and with success. */
module CallOrder {
  import opened Common
  import opened Decimals
  import opened Entities
  import opened LedgerSteps
  import opened LedgerTheorems
  import opened KeyOverlaps

  ghost predicate PhaseAt(w: World, r: nat, phase: Phase) {
    r < |w.runs| && w.runs[r].phase == phase
  }

  /** Step i is this one, made while run r was in this phase. */
  ghost predicate Made(w0: World, steps: seq<Step>, i: nat, s: Step, r: nat, phase: Phase) {
    i < |steps| && steps[i] == s && PhaseAt(At(w0, steps, i), r, phase)
  }

  // --- Where each phase comes from ----------------------------------------------------------------------

  lemma StepToReading(w: World, s: Step, r: nat)
    requires PhaseAt(Apply(w, s), r, Reading)
    ensures PhaseAt(w, r, Reading) || (s.Begin? && r == |w.runs| && Exact(s.cmd.amount))
  {
    if r < |w.runs| && !StepOf(s, r) {
      OthersLeaveRun(w, s, r);
    }
  }

  lemma StepToValidating(w: World, s: Step, r: nat)
    requires PhaseAt(Apply(w, s), r, Validating)
    ensures PhaseAt(w, r, Validating) || (s == Read(r, Absent) && PhaseAt(w, r, Reading))
  {
    if r < |w.runs| && !StepOf(s, r) {
      OthersLeaveRun(w, s, r);
    }
  }

  lemma StepToReserving(w: World, s: Step, r: nat, id: Uuid, at: int)
    requires PhaseAt(Apply(w, s), r, Reserving(id, at))
    ensures PhaseAt(w, r, Reserving(id, at)) || (s == Validate(r, Accepted, id, at) && PhaseAt(w, r, Validating))
    ensures r < |w.runs| && !PhaseAt(w, r, Reserving(id, at)) ==> w.runs[r].cmd.PostPayment? && w.runs[r].cmd.customer.Some?
  {
    if r < |w.runs| && !StepOf(s, r) {
      OthersLeaveRun(w, s, r);
    }
  }

  lemma StepToWriting(w: World, s: Step, r: nat, id: Uuid, at: int)
    requires PhaseAt(Apply(w, s), r, Writing(id, at))
    ensures PhaseAt(w, r, Writing(id, at)) ||
            (r < |w.runs| &&
             if w.runs[r].cmd.PostPayment? then s == Reserve(r, Reserved) && PhaseAt(w, r, Reserving(id, at))
             else s == Validate(r, Accepted, id, at) && PhaseAt(w, r, Validating))
  {
    if r < |w.runs| && !StepOf(s, r) {
      OthersLeaveRun(w, s, r);
    }
  }

  lemma {:induction false} ReadingBegan(w0: World, steps: seq<Step>, r: nat, n: nat) returns (i: nat)
    requires w0.runs == [] && n <= |steps| && PhaseAt(At(w0, steps, n), r, Reading)
    ensures i < n && steps[i].Begin? && Exact(steps[i].cmd.amount) && |At(w0, steps, i).runs| == r
    decreases n
  {
    StartHasNoRuns(w0, steps, r, n);
    NextAt(w0, steps, n - 1);
    StepToReading(At(w0, steps, n - 1), steps[n - 1], r);
    if PhaseAt(At(w0, steps, n - 1), r, Reading) {
      i := ReadingBegan(w0, steps, r, n - 1);
    } else {
      i := n - 1;
    }
  }

  lemma StartHasNoRuns(w0: World, steps: seq<Step>, r: nat, n: nat)
    requires w0.runs == [] && n <= |steps| && r < |At(w0, steps, n).runs|
    ensures n > 0
  {
  }

  lemma {:induction false} ValidatingRead(w0: World, steps: seq<Step>, r: nat, n: nat) returns (i: nat)
    requires w0.runs == [] && n <= |steps| && PhaseAt(At(w0, steps, n), r, Validating)
    ensures i < n && Made(w0, steps, i, Read(r, Absent), r, Reading)
    decreases n
  {
    StartHasNoRuns(w0, steps, r, n);
    NextAt(w0, steps, n - 1);
    StepToValidating(At(w0, steps, n - 1), steps[n - 1], r);
    if PhaseAt(At(w0, steps, n - 1), r, Validating) {
      i := ValidatingRead(w0, steps, r, n - 1);
    } else {
      i := n - 1;
    }
  }

  lemma {:induction false} ReservingValidated(w0: World, steps: seq<Step>, r: nat, id: Uuid, at: int, n: nat) returns (i: nat)
    requires w0.runs == [] && n <= |steps| && PhaseAt(At(w0, steps, n), r, Reserving(id, at))
    ensures i < n && Made(w0, steps, i, Validate(r, Accepted, id, at), r, Validating)
    decreases n
  {
    StartHasNoRuns(w0, steps, r, n);
    NextAt(w0, steps, n - 1);
    StepToReserving(At(w0, steps, n - 1), steps[n - 1], r, id, at);
    if PhaseAt(At(w0, steps, n - 1), r, Reserving(id, at)) {
      i := ReservingValidated(w0, steps, r, id, at, n - 1);
    } else {
      i := n - 1;
    }
  }

  /** The last call before a write: the hold of a payment, the validation of a credit. */
  ghost predicate ReadiedBy(w0: World, steps: seq<Step>, r: nat, id: Uuid, at: int, i: nat) {
    i < |steps| && r < |At(w0, steps, i).runs| &&
    if At(w0, steps, i).runs[r].cmd.PostPayment? then Made(w0, steps, i, Reserve(r, Reserved), r, Reserving(id, at))
    else Made(w0, steps, i, Validate(r, Accepted, id, at), r, Validating)
  }

  lemma {:induction false} WritingReadied(w0: World, steps: seq<Step>, r: nat, id: Uuid, at: int, n: nat) returns (i: nat)
    requires w0.runs == [] && n <= |steps| && PhaseAt(At(w0, steps, n), r, Writing(id, at))
    ensures i < n && ReadiedBy(w0, steps, r, id, at, i)
    decreases n
  {
    StartHasNoRuns(w0, steps, r, n);
    NextAt(w0, steps, n - 1);
    StepToWriting(At(w0, steps, n - 1), steps[n - 1], r, id, at);
    if PhaseAt(At(w0, steps, n - 1), r, Writing(id, at)) {
      i := WritingReadied(w0, steps, r, id, at, n - 1);
    } else {
      i := n - 1;
    }
  }

  // --- Booking --------------------------------------------------------------------------------------------

  /** The calls of run r, each made with success: exact amount, no record, accepted, and for a payment held. */
  ghost predicate Passed(w0: World, steps: seq<Step>, r: nat, id: Uuid, at: int, begin: nat, read: nat, validate: nat,
                         ready: nat, n: nat) {
    && begin < read < validate <= ready < n <= |steps|
    && steps[begin].Begin? && Exact(steps[begin].cmd.amount) && |At(w0, steps, begin).runs| == r
    && Made(w0, steps, read, Read(r, Absent), r, Reading)
    && Made(w0, steps, validate, Validate(r, Accepted, id, at), r, Validating)
    && (steps[begin].cmd.PostPayment? ==>
          validate < ready && Made(w0, steps, ready, Reserve(r, Reserved), r, Reserving(id, at)))
  }

  lemma CommandOfRun(w0: World, steps: seq<Step>, r: nat, i: nat, j: nat)
    requires i < j <= |steps| && steps[i].Begin? && |At(w0, steps, i).runs| == r
    ensures r < |At(w0, steps, j).runs| && At(w0, steps, j).runs[r].cmd == steps[i].cmd
  {
    NextAt(w0, steps, i);
    RunsAfterStep(At(w0, steps, i), steps[i]);
    RunStaysAt(w0, steps, r, i + 1, j);
  }

  lemma WritingPassed(w0: World, steps: seq<Step>, r: nat, id: Uuid, at: int, n: nat)
    returns (begin: nat, read: nat, validate: nat, ready: nat)
    requires w0.runs == [] && n <= |steps| && PhaseAt(At(w0, steps, n), r, Writing(id, at))
    ensures Passed(w0, steps, r, id, at, begin, read, validate, ready, n)
  {
    ready := WritingReadied(w0, steps, r, id, at, n);
    validate := ready;
    if At(w0, steps, ready).runs[r].cmd.PostPayment? {
      validate := ReservingValidated(w0, steps, r, id, at, ready);
    }
    read := ValidatingRead(w0, steps, r, validate);
    begin := ReadingBegan(w0, steps, r, read);
    CommandOfRun(w0, steps, r, begin, ready);
  }

  /** A commit has the id and the time its validation drew, and its run began with an exact amount, found no record,
      was accepted and, for a payment, got its hold, in this order, before a write in which nothing failed. */
  lemma BookedRunPassedEveryCall(w0: World, steps: seq<Step>, j: nat)
    returns (begin: nat, read: nat, validate: nat, ready: nat)
    requires Initial(w0) && j < |steps| && Commits(At(w0, steps, j), steps[j])
    ensures var r, before, after := steps[j].run, At(w0, steps, j), At(w0, steps, j + 1);
            && before.runs[r].phase.Writing?
            && var id, at := before.runs[r].phase.id, before.runs[r].phase.at;
            && Passed(w0, steps, r, id, at, begin, read, validate, ready, j)
            && steps[j].fault == None
            && before.runs[r].cmd == steps[begin].cmd
            && |after.log| == |before.log| + 1
            && after.log[|before.log|] == Commit(steps[begin].cmd, id,
                                                 if steps[begin].cmd.PostPayment? then steps[j].journalId else id,
                                                 steps[j].eventId, at)
  {
    var r, before := steps[j].run, At(w0, steps, j);
    begin, read, validate, ready := WritingPassed(w0, steps, r, before.runs[r].phase.id, before.runs[r].phase.at, j);
    CommandOfRun(w0, steps, r, begin, j);
    NextAt(w0, steps, j);
    OnlyWritesCommit(before, steps[j]);
  }

  // --- Holds ----------------------------------------------------------------------------------------------------

  /** Accounts can take a hold exactly when a positive amount is available, and takes it from the payer. */
  lemma ReserveIff(w: World, r: nat)
    requires r < |w.runs| && w.runs[r].phase.Reserving? && w.runs[r].cmd.PostPayment?
    ensures var payer, v := w.runs[r].cmd.source, w.runs[r].cmd.amount.Value();
            && (Enabled(w, Reserve(r, Reserved)) <==>
                  v > 0.0 && payer in w.balances && w.balances[payer].available >= v)
            && (Enabled(w, Reserve(r, Reserved)) ==>
                  Apply(w, Reserve(r, Reserved)).balances ==
                  w.balances[payer := Balance(w.balances[payer].available - v, w.balances[payer].hold + v)])
  {
  }

  /** A release can arrive exactly when as much is held, and gives it back to the payer. */
  lemma ReleaseIff(w: World, r: nat)
    requires r < |w.runs| && w.runs[r].phase.Compensating? && w.runs[r].cmd.PostPayment?
    ensures var payer, v := w.runs[r].cmd.source, w.runs[r].cmd.amount.Value();
            && (Enabled(w, Release(r, true)) <==> v > 0.0 && payer in w.balances && w.balances[payer].hold >= v)
            && (Enabled(w, Release(r, true)) ==>
                  Apply(w, Release(r, true)).balances ==
                  w.balances[payer := Balance(w.balances[payer].available + v, w.balances[payer].hold - v)])
  {
  }
}
