/** What an account's complete statement says about the payments and credits that were booked. */
module LedgerStatement {
  import opened Decimals
  import opened Entities
  import opened LedgerInvariant
  import opened LedgerTheorems
  import L = LedgerSteps
  import S = Statement

  /** What one booked command adds to an account. */
  function Moved(cmd: Command, account: Uuid): real {
    match cmd
    case PostPayment(_, source, destination, _, amount, _, _) =>
      (if destination == account then amount.Value() else 0.0) - (if source == account then amount.Value() else 0.0)
    case _ => if cmd.account == account then cmd.amount.Value() else 0.0
  }

  function MovedTotal(log: seq<Commit>, account: Uuid, currency: string): real {
    if log == [] then 0.0
    else
      var cmd := log[|log| - 1].cmd;
      MovedTotal(log[..|log| - 1], account, currency) + (if cmd.currency == currency then Moved(cmd, account) else 0.0)
  }

  lemma NetOfCommand(cmd: Command, account: Uuid)
    ensures S.NetFor(Lines(cmd), account) == Moved(cmd, account)
  {
    S.TwoLineNet(Lines(cmd)[0], Lines(cmd)[1], account);
  }

  lemma {:induction false} NetOfLog(log: seq<Commit>, account: Uuid, currency: string)
    ensures S.AccountNet(JournalsOf(log), account, currency) == MovedTotal(log, account, currency)
    decreases |log|
  {
    if log != [] {
      var n := |log| - 1;
      NetOfLog(log[..n], account, currency);
      assert JournalsOf(log)[..n] == JournalsOf(log[..n]);
      NetOfCommand(log[n].cmd, account);
    }
  }

  lemma LinesAreStored(cmd: Command)
    requires Exact(cmd.amount) && cmd.amount.scale <= 6
    ensures S.StoredLines(Lines(cmd))
  {
    var v := cmd.amount.Value();
    SixDecimalsPrintExactly(cmd.amount);
    Fixed6ExactIffSixtyfourths(cmd.amount);
    assert (Fixed6(v) as real).Floor == Fixed6(v);
    assert S.WholeMillionths(0.0) && S.WholeMillionths(v);
  }

  /** In every reachable state a complete statement adds up, digit for digit, to the credits and payments the
      account received less the payments it made. */
  lemma StatementShowsMoneyMoved(w: L.World, entries: seq<JournalEntry>, account: Uuid, from: int, to: int,
                                 currency: string)
    requires Reachable(w) && S.IsActivity(entries, w.journals, account, from, to)
    requires forall i :: 0 <= i < |w.journals| ==> from <= w.journals[i].bookedAt <= to
    requires forall i :: 0 <= i < |w.log| ==> w.log[i].cmd.amount.scale <= 6
    ensures S.SignedTotal(S.Items(entries, account), currency) as real ==
            MovedTotal(w.log, account, currency) * 1000000.0
  {
    ReachableInv(w);
    forall i | 0 <= i < |w.journals|
      ensures S.StoredLines(w.journals[i].lines)
    {
      assert CommitSound(w, w.log[i]);
      LinesAreStored(w.log[i].cmd);
    }
    S.StatementIsLedgerNet(entries, w.journals, account, from, to, currency);
    NetOfLog(w.log, account, currency);
  }

  lemma CommittedAmountIsPositive(w: L.World, i: nat)
    requires Reachable(w) && i < |w.log| && w.log[i].cmd.PostPayment?
    ensures w.log[i].cmd.amount.Value() > 0.0
  {
    ReachableInv(w);
    assert HasRun(w, w.log[i]);
    var r: nat :| CommittedBy(w, w.log[i], r);
    RunIsSound(w, r);
  }

  /** A booked payment took a hold, so its amount is positive: the statements of payer and payee mirror each
      other exactly when they are two accounts, as they are in every request the validators let through. */
  lemma BookedPaymentMirrorsIff(w: L.World, i: nat)
    requires Reachable(w) && i < |w.log| && w.log[i].cmd.PostPayment?
    ensures S.Mirrored(w.log[i]) <==> w.log[i].cmd.source != w.log[i].cmd.destination
  {
    CommittedAmountIsPositive(w, i);
    S.PaymentMirrorsIff(w.log[i]);
  }
}
