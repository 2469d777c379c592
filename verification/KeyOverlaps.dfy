/** When a key is booked once: what callers have to see to. */
module KeyOverlaps {
  import opened Common
  import opened Entities
  import opened LedgerSteps
  import opened LedgerInvariant
  import opened LedgerTheorems
  import S = LedgerService

  /** The state before the i-th step. */
  function At(w0: World, steps: seq<Step>, i: nat): World
    requires i <= |steps|
  {
    Exec(w0, steps[..i])
  }

  lemma NextAt(w0: World, steps: seq<Step>, i: nat)
    requires i < |steps|
    ensures At(w0, steps, i + 1) == Apply(At(w0, steps, i), steps[i])
  {
    assert steps[..i + 1][..i] == steps[..i];
  }

  lemma LastAt(w0: World, steps: seq<Step>)
    ensures At(w0, steps, |steps|) == Exec(w0, steps)
  {
    assert steps[..|steps|] == steps;
  }

  predicate BooksKey(w: World, s: Step, key: string) {
    Commits(w, s) && w.runs[s.run].cmd.key == key
  }

  predicate ReadsAbsent(w: World, s: Step, r: nat) {
    s.Read? && s.run == r && s.found == Absent && Enabled(w, s)
  }

  /** A read that finds nothing finds it while there is nothing. */
  predicate FreshRead(w: World, s: Step) {
    s.Read? && s.found == Absent && Enabled(w, s) ==> w.runs[s.run].cmd.key !in w.idempotency
  }

  ghost predicate FreshReads(w0: World, steps: seq<Step>) {
    forall i: nat :: i < |steps| ==> FreshRead(At(w0, steps, i), steps[i])
  }

  /** Between its read at i and its commit at j a run is passed by another commit of the key, at k. */
  ghost predicate Overlap(w0: World, steps: seq<Step>, key: string, i: nat, k: nat, j: nat) {
    && i < k < j < |steps|
    && BooksKey(At(w0, steps, k), steps[k], key)
    && BooksKey(At(w0, steps, j), steps[j], key)
    && ReadsAbsent(At(w0, steps, i), steps[i], steps[j].run)
  }

  // --- What one step does to records and runs -------------------------------------------------------------

  lemma StepRecords(w: World, s: Step, key: string)
    ensures key in Apply(w, s).idempotency <==> key in w.idempotency || BooksKey(w, s, key)
    ensures key in w.idempotency ==> Apply(w, s).idempotency[key] == w.idempotency[key]
  {
    StepPuts(w, s);
  }

  lemma StepPuts(w: World, s: Step)
    ensures Apply(w, s).idempotency ==
            if Commits(w, s)
            then Put(w.idempotency, w.runs[s.run].cmd.key, RecordOf(Attempt(w.runs[s.run], s.journalId, s.eventId)))
            else w.idempotency
  {
  }

  predicate PastRead(w: World, r: nat) {
    r < |w.runs| && (w.runs[r].phase.Validating? || w.runs[r].phase.Reserving? || w.runs[r].phase.Writing?)
  }

  lemma StepPastRead(w: World, s: Step, r: nat)
    requires PastRead(Apply(w, s), r)
    ensures PastRead(w, r) || ReadsAbsent(w, s, r)
  {
    if r < |w.runs| && !StepOf(s, r) {
      OthersLeaveRun(w, s, r);
    }
  }

  lemma {:induction false} RecordedIff(w0: World, steps: seq<Step>, key: string, n: nat)
    requires Initial(w0) && n <= |steps|
    ensures key in At(w0, steps, n).idempotency <==> exists k: nat :: k < n && BooksKey(At(w0, steps, k), steps[k], key)
    decreases n
  {
    if n > 0 {
      RecordedIff(w0, steps, key, n - 1);
      NextAt(w0, steps, n - 1);
      StepRecords(At(w0, steps, n - 1), steps[n - 1], key);
    }
  }

  lemma {:induction false} ReadBefore(w0: World, steps: seq<Step>, r: nat, n: nat) returns (i: nat)
    requires Initial(w0) && n <= |steps| && PastRead(At(w0, steps, n), r)
    ensures i < n && ReadsAbsent(At(w0, steps, i), steps[i], r)
    decreases n
  {
    if n == 0 {
      assert false;
    } else {
      NextAt(w0, steps, n - 1);
      StepPastRead(At(w0, steps, n - 1), steps[n - 1], r);
      if PastRead(At(w0, steps, n - 1), r) {
        i := ReadBefore(w0, steps, r, n - 1);
      } else {
        i := n - 1;
      }
    }
  }

  lemma {:induction false} RunStaysAt(w0: World, steps: seq<Step>, r: nat, i: nat, j: nat)
    requires i <= j <= |steps| && r < |At(w0, steps, i).runs|
    ensures var w, w' := At(w0, steps, i), At(w0, steps, j);
            && r < |w'.runs| && w'.runs[r].cmd == w.runs[r].cmd
            && (w.runs[r].phase.Done? ==> w'.runs[r] == w.runs[r])
    decreases j
  {
    if i < j {
      RunStaysAt(w0, steps, r, i, j - 1);
      NextAt(w0, steps, j - 1);
      StepKeepsCommand(At(w0, steps, j - 1), steps[j - 1], r);
      if At(w0, steps, j - 1).runs[r].phase.Done? {
        StepLeavesDone(At(w0, steps, j - 1), steps[j - 1], r);
      }
    }
  }

  // --- One key --------------------------------------------------------------------------------------------------

  predicate KeyOnce(log: seq<Commit>, key: string) {
    forall i, j :: 0 <= i < j < |log| && log[i].cmd.key == key ==> log[j].cmd.key != key
  }

  lemma KeyOnceNext(log: seq<Commit>, c: Commit, key: string)
    ensures KeyOnce(log + [c], key) <==> KeyOnce(log, key) && !(c.cmd.key == key && key in RecordsOf(log))
  {
    KeysOfRecords(log, key);
    var log' := log + [c];
    assert log'[|log|] == c && forall i :: 0 <= i < |log| ==> log'[i] == log[i];
    if c.cmd.key == key && key in RecordsOf(log) {
      var i :| 0 <= i < |log| && log[i].cmd.key == key;
      assert log'[i].cmd.key == key && log'[|log|].cmd.key == key;
    }
  }

  lemma StepKeepsKeyOnce(w: World, s: Step, key: string)
    requires TablesFollowLog(w)
    ensures KeyOnce(Apply(w, s).log, key) <==> KeyOnce(w.log, key) && !(BooksKey(w, s, key) && key in w.idempotency)
  {
    OnlyWritesCommit(w, s);
    if Commits(w, s) {
      KeyOnceNext(w.log, Attempt(w.runs[s.run], s.journalId, s.eventId), key);
    }
  }

  /** With fresh reads a commit that meets its key recorded was passed by the commit that recorded it. */
  lemma RecordedIsOverlap(w0: World, steps: seq<Step>, key: string, j: nat)
    requires Initial(w0) && FreshReads(w0, steps) && j < |steps| && BooksKey(At(w0, steps, j), steps[j], key)
    requires key in At(w0, steps, j).idempotency
    ensures exists i: nat, k: nat :: Overlap(w0, steps, key, i, k, j)
  {
    var r := steps[j].run;
    var i := ReadBefore(w0, steps, r, j);
    RunStaysAt(w0, steps, r, i, j);
    RecordedIff(w0, steps, key, j);
    var k: nat :| k < j && BooksKey(At(w0, steps, k), steps[k], key);
    assert FreshRead(At(w0, steps, i), steps[i]);
    RecordedIff(w0, steps, key, i);
    assert k != i;
    assert Overlap(w0, steps, key, i, k, j);
  }

  ghost predicate OverlapAt(w0: World, steps: seq<Step>, key: string, j: nat) {
    exists i: nat, k: nat :: Overlap(w0, steps, key, i, k, j)
  }

  lemma OverlapIff(w0: World, steps: seq<Step>, key: string, j: nat)
    requires Initial(w0) && FreshReads(w0, steps) && j < |steps|
    ensures OverlapAt(w0, steps, key, j) <==>
            BooksKey(At(w0, steps, j), steps[j], key) && key in At(w0, steps, j).idempotency
  {
    RecordedIff(w0, steps, key, j);
    if BooksKey(At(w0, steps, j), steps[j], key) && key in At(w0, steps, j).idempotency {
      RecordedIsOverlap(w0, steps, key, j);
    }
  }

  lemma KeyOnceAfter(w0: World, steps: seq<Step>, key: string, n: nat)
    requires Initial(w0) && FreshReads(w0, steps) && n < |steps|
    ensures KeyOnce(At(w0, steps, n + 1).log, key) <==>
            KeyOnce(At(w0, steps, n).log, key) && !OverlapAt(w0, steps, key, n)
  {
    NextAt(w0, steps, n);
    TablesAt(w0, steps, n);
    StepKeepsKeyOnce(At(w0, steps, n), steps[n], key);
    OverlapIff(w0, steps, key, n);
  }

  lemma TablesAt(w0: World, steps: seq<Step>, n: nat)
    requires Initial(w0) && n <= |steps|
    ensures TablesFollowLog(At(w0, steps, n))
  {
    InitialInv(w0);
    RunKeepsInv(w0, steps[..n]);
  }

  ghost predicate NoneBefore(w0: World, steps: seq<Step>, key: string, n: nat)
    requires n <= |steps|
  {
    n > 0 ==> NoneBefore(w0, steps, key, n - 1) && !OverlapAt(w0, steps, key, n - 1)
  }

  lemma {:induction false} NoneBeforeIff(w0: World, steps: seq<Step>, key: string, n: nat)
    requires n <= |steps|
    ensures NoneBefore(w0, steps, key, n) <==> forall j: nat :: j < n ==> !OverlapAt(w0, steps, key, j)
    decreases n
  {
    if n > 0 {
      NoneBeforeIff(w0, steps, key, n - 1);
    }
  }

  lemma NothingAtStart(w0: World, steps: seq<Step>, key: string)
    requires Initial(w0)
    ensures KeyOnce(At(w0, steps, 0).log, key)
  {
  }

  lemma {:induction false} KeyOnceUpTo(w0: World, steps: seq<Step>, key: string, n: nat)
    requires Initial(w0) && FreshReads(w0, steps) && n <= |steps|
    ensures KeyOnce(At(w0, steps, n).log, key) <==> NoneBefore(w0, steps, key, n)
    decreases n
  {
    if n == 0 {
      NothingAtStart(w0, steps, key);
    } else {
      KeyOnceUpTo(w0, steps, key, n - 1);
      KeyOnceAfter(w0, steps, key, n - 1);
    }
  }

  ghost predicate NoOverlap(w0: World, steps: seq<Step>, key: string) {
    forall i: nat, k: nat, j: nat :: !Overlap(w0, steps, key, i, k, j)
  }

  /** With fresh reads a key is booked at most once exactly when no run that books it is passed, between its read
      and its commit, by another commit of the key. */
  lemma KeyOnceIffNoOverlap(w0: World, steps: seq<Step>, key: string)
    requires Initial(w0) && FreshReads(w0, steps)
    ensures KeyOnce(Exec(w0, steps).log, key) <==> NoOverlap(w0, steps, key)
  {
    KeyOnceUpTo(w0, steps, key, |steps|);
    NoneBeforeIff(w0, steps, key, |steps|);
    LastAt(w0, steps);
    if forall j: nat :: j < |steps| ==> !OverlapAt(w0, steps, key, j) {
      forall i: nat, k: nat, j: nat
        ensures !Overlap(w0, steps, key, i, k, j)
      {
        assert j < |steps| ==> !OverlapAt(w0, steps, key, j);
      }
    }
  }

  /** The same for all keys together. */
  lemma KeysOnceIffNoOverlap(w0: World, steps: seq<Step>)
    requires Initial(w0) && FreshReads(w0, steps)
    ensures KeysOnce(Exec(w0, steps).log) <==> forall key :: NoOverlap(w0, steps, key)
  {
    var log := Exec(w0, steps).log;
    forall key
      ensures KeyOnce(log, key) <==> NoOverlap(w0, steps, key)
    {
      KeyOnceIffNoOverlap(w0, steps, key);
    }
    if forall key :: NoOverlap(w0, steps, key) {
      forall i, j | 0 <= i < j < |log|
        ensures log[i].cmd.key != log[j].cmd.key
      {
        assert NoOverlap(w0, steps, log[i].cmd.key);
        assert KeyOnce(log, log[i].cmd.key);
      }
    }
  }

  // --- One call after another ------------------------------------------------------------------------------------

  ghost predicate AllDone(w: World, key: string) {
    forall r :: 0 <= r < |w.runs| && w.runs[r].cmd.key == key ==> w.runs[r].phase.Done?
  }

  /** A call of the key begins when the earlier ones are over. */
  ghost predicate BeginsAlone(w: World, s: Step, key: string) {
    s.Begin? && s.cmd.key == key ==> AllDone(w, key)
  }

  ghost predicate OneAtATime(w0: World, steps: seq<Step>, key: string) {
    forall i: nat :: i < |steps| ==> BeginsAlone(At(w0, steps, i), steps[i], key)
  }

  ghost predicate OnlyLastActive(w: World, key: string) {
    forall r, q :: 0 <= r < q < |w.runs| && w.runs[r].cmd.key == key && w.runs[q].cmd.key == key ==> w.runs[r].phase.Done?
  }

  lemma RunsAfterStep(w: World, s: Step)
    ensures |Apply(w, s).runs| == |w.runs| + (if s.Begin? then 1 else 0)
    ensures s.Begin? ==> Apply(w, s).runs[|w.runs|].cmd == s.cmd
  {
  }

  lemma StepKeepsOnlyLast(w: World, s: Step, key: string)
    requires OnlyLastActive(w, key) && BeginsAlone(w, s, key)
    ensures OnlyLastActive(Apply(w, s), key)
  {
    var w' := Apply(w, s);
    RunsAfterStep(w, s);
    forall r, q | 0 <= r < q < |w'.runs| && w'.runs[r].cmd.key == key && w'.runs[q].cmd.key == key
      ensures w'.runs[r].phase.Done?
    {
      StepKeepsCommand(w, s, r);
      if q < |w.runs| {
        StepKeepsCommand(w, s, q);
      }
      assert w.runs[r].phase.Done?;
      StepLeavesDone(w, s, r);
    }
  }

  lemma {:induction false} OnlyLastAt(w0: World, steps: seq<Step>, key: string, n: nat)
    requires Initial(w0) && OneAtATime(w0, steps, key) && n <= |steps|
    ensures OnlyLastActive(At(w0, steps, n), key)
    decreases n
  {
    if n > 0 {
      OnlyLastAt(w0, steps, key, n - 1);
      NextAt(w0, steps, n - 1);
      assert BeginsAlone(At(w0, steps, n - 1), steps[n - 1], key);
      StepKeepsOnlyLast(At(w0, steps, n - 1), steps[n - 1], key);
    }
  }

  lemma CommitEndsRun(w: World, s: Step)
    requires Commits(w, s)
    ensures w.runs[s.run].phase.Writing?
    ensures s.run < |Apply(w, s).runs| && Apply(w, s).runs[s.run].phase.Done?
  {
  }

  lemma BookedRunIsDone(w0: World, steps: seq<Step>, k: nat, j: nat)
    requires k < j <= |steps| && Commits(At(w0, steps, k), steps[k])
    ensures steps[k].run < |At(w0, steps, j).runs| && At(w0, steps, j).runs[steps[k].run].phase.Done?
  {
    CommitEndsRun(At(w0, steps, k), steps[k]);
    NextAt(w0, steps, k);
    RunStaysAt(w0, steps, steps[k].run, k + 1, j);
  }

  lemma ActiveAreOne(w: World, key: string, r: nat, q: nat)
    requires OnlyLastActive(w, key) && r < |w.runs| && q < |w.runs|
    requires w.runs[r].cmd.key == key && w.runs[q].cmd.key == key
    requires !w.runs[r].phase.Done? && !w.runs[q].phase.Done?
    ensures r == q
  {
  }

  lemma PassedRunIsActive(w0: World, steps: seq<Step>, key: string, i: nat, k: nat, j: nat)
    requires Overlap(w0, steps, key, i, k, j)
    ensures var r, w := steps[j].run, At(w0, steps, k);
            r < |w.runs| && w.runs[r].cmd.key == key && !w.runs[r].phase.Done?
  {
    CommitEndsRun(At(w0, steps, j), steps[j]);
    RunStaysAt(w0, steps, steps[j].run, i, k);
    RunStaysAt(w0, steps, steps[j].run, k, j);
  }

  lemma PassingRunIsOther(w0: World, steps: seq<Step>, key: string, i: nat, k: nat, j: nat)
    requires Overlap(w0, steps, key, i, k, j)
    ensures steps[k].run != steps[j].run
  {
    CommitEndsRun(At(w0, steps, j), steps[j]);
    BookedRunIsDone(w0, steps, k, j);
  }

  lemma OneAtATimeNoOverlap(w0: World, steps: seq<Step>, key: string, i: nat, k: nat, j: nat)
    requires Initial(w0) && OneAtATime(w0, steps, key)
    ensures !Overlap(w0, steps, key, i, k, j)
  {
    if Overlap(w0, steps, key, i, k, j) {
      PassedRunIsActive(w0, steps, key, i, k, j);
      PassingRunIsOther(w0, steps, key, i, k, j);
      CommitEndsRun(At(w0, steps, k), steps[k]);
      OnlyLastAt(w0, steps, key, k);
      ActiveAreOne(At(w0, steps, k), key, steps[j].run, steps[k].run);
    }
  }

  lemma {:induction false} ReplayedAt(w0: World, steps: seq<Step>, r: nat, n: nat)
    requires Initial(w0) && n <= |steps|
    ensures Replays(At(w0, steps, n), r)
    decreases n
  {
    if n > 0 {
      ReplayedAt(w0, steps, r, n - 1);
      NextAt(w0, steps, n - 1);
      StepReplays(At(w0, steps, n - 1), steps[n - 1], r);
    }
  }

  /** What the run was answered from is still recorded under its key. */
  ghost predicate Replays(w: World, r: nat) {
    r < |w.runs| && w.runs[r].phase.Done? && w.runs[r].phase.outcome.Replayed? ==>
      var cmd := w.runs[r].cmd;
      cmd.key in w.idempotency && w.runs[r].phase.outcome.response == Decode(cmd, w.idempotency[cmd.key].response)
  }

  lemma StepReplays(w: World, s: Step, r: nat)
    requires Replays(w, r)
    ensures Replays(Apply(w, s), r)
  {
    if r < |w.runs| {
      StepKeepsCommand(w, s, r);
      StepRecords(w, s, w.runs[r].cmd.key);
      if !StepOf(s, r) {
        OthersLeaveRun(w, s, r);
      }
    }
  }

  /** The commit's result, as every call of its key is answered it. */
  ghost predicate AnswersAs(run: Run, c: Commit) {
    S.Answer(run).Some? ==> S.Answer(run) == Some(Decode(run.cmd, ResponseOf(c)))
  }

  ghost predicate AnsweredFrom(w: World, run: Run, n: nat) {
    n < |w.log| && w.log[n].cmd.key == run.cmd.key && AnswersAs(run, w.log[n])
  }

  lemma ReplayIsOfKey(w: World, run: Run) returns (n: nat)
    requires w.idempotency == RecordsOf(w.log) && run.cmd.key in w.idempotency
    requires run.phase == Done(Replayed(Decode(run.cmd, w.idempotency[run.cmd.key].response)))
    ensures AnsweredFrom(w, run, n)
  {
    n := FirstUse(w.log, run.cmd.key);
  }

  lemma CommitIsOfKey(w: World, run: Run, c: Commit) returns (n: nat)
    requires run.phase == Done(Committed(c)) && c in w.log && c.cmd == run.cmd
    ensures AnsweredFrom(w, run, n)
  {
    n :| n < |w.log| && w.log[n] == c;
  }

  lemma AnswerIsOfKey(w: World, r: nat) returns (n: nat)
    requires TablesFollowLog(w) && r < |w.runs| && RunSound(w, w.runs[r]) && Replays(w, r)
    requires S.Answer(w.runs[r]).Some?
    ensures AnsweredFrom(w, w.runs[r], n)
  {
    if w.runs[r].phase.outcome.Replayed? {
      n := ReplayIsOfKey(w, w.runs[r]);
    } else {
      n := CommitIsOfKey(w, w.runs[r], w.runs[r].phase.outcome.commit);
    }
  }

  /** Calls of one key made one after another, with fresh reads, book it at most once, and each call that is
      answered at all is answered the result of that one commit. */
  lemma SequentialCallsBookOnce(w0: World, steps: seq<Step>, key: string, r: nat)
    requires Initial(w0) && FreshReads(w0, steps) && OneAtATime(w0, steps, key)
    ensures var w := Exec(w0, steps);
            && KeyOnce(w.log, key)
            && (r < |w.runs| && w.runs[r].cmd.key == key && S.Answer(w.runs[r]).Some? ==>
                  && (exists n: nat :: AnsweredFrom(w, w.runs[r], n))
                  && forall n: nat :: n < |w.log| && w.log[n].cmd.key == key ==> AnswersAs(w.runs[r], w.log[n]))
  {
    var w := Exec(w0, steps);
    forall i: nat, k: nat, j: nat
      ensures !Overlap(w0, steps, key, i, k, j)
    {
      OneAtATimeNoOverlap(w0, steps, key, i, k, j);
    }
    KeyOnceIffNoOverlap(w0, steps, key);
    InitialInv(w0);
    RunKeepsInv(w0, steps);
    ReplayedAt(w0, steps, r, |steps|);
    LastAt(w0, steps);
    if r < |w.runs| && w.runs[r].cmd.key == key && S.Answer(w.runs[r]).Some? {
      RunIsSound(w, r);
      var n := AnswerIsOfKey(w, r);
      OnlyOne(w.log, key);
    }
  }

  lemma OnlyOne(log: seq<Commit>, key: string)
    requires KeyOnce(log, key)
    ensures forall m: nat, n: nat :: m < |log| && n < |log| && log[m].cmd.key == key && log[n].cmd.key == key ==> m == n
  {
  }
}
