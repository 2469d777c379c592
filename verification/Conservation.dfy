/** Sums over the whole journal. */
module Conservation {
  import opened Decimals
  import opened Entities
  import opened LedgerRules
  import opened LedgerSteps
  import opened LedgerInvariant
  import opened LedgerTheorems

  function DebitTotal(js: seq<JournalEntry>, currency: string): real {
    if js == [] then 0.0
    else
      var j := js[|js| - 1];
      DebitTotal(js[..|js| - 1], currency) + (if j.currency == currency then Debits(j.lines) else 0.0)
  }

  function CreditTotal(js: seq<JournalEntry>, currency: string): real {
    if js == [] then 0.0
    else
      var j := js[|js| - 1];
      CreditTotal(js[..|js| - 1], currency) + (if j.currency == currency then Credits(j.lines) else 0.0)
  }

  /** Credits less debits of the lines that name an account. */
  function NamedNet(lines: seq<EntryLine>): real {
    if lines == [] then 0.0
    else
      var l := lines[|lines| - 1];
      NamedNet(lines[..|lines| - 1]) + (if l.counterparty.Some? then l.credit - l.debit else 0.0)
  }

  function CustomerNet(js: seq<JournalEntry>, currency: string): real {
    if js == [] then 0.0
    else
      var j := js[|js| - 1];
      CustomerNet(js[..|js| - 1], currency) + (if j.currency == currency then NamedNet(j.lines) else 0.0)
  }

  /** The total the two credit operations posted. */
  function CreditsPosted(log: seq<Commit>, currency: string): real {
    if log == [] then 0.0
    else
      var cmd := log[|log| - 1].cmd;
      CreditsPosted(log[..|log| - 1], currency)
      + (if !cmd.PostPayment? && cmd.currency == currency then cmd.amount.Value() else 0.0)
  }

  lemma NamedNetOfLines(cmd: Command)
    ensures NamedNet(Lines(cmd)) == if cmd.PostPayment? then 0.0 else cmd.amount.Value()
  {
    var lines := Lines(cmd);
    assert lines[..1] == [lines[0]] && [lines[0]][..0] == [];
    assert NamedNet([lines[0]]) == if cmd.PostPayment? then -cmd.amount.Value() else 0.0;
  }

  lemma {:induction false} TotalsOfLog(log: seq<Commit>, currency: string)
    ensures DebitTotal(JournalsOf(log), currency) == CreditTotal(JournalsOf(log), currency)
    ensures CustomerNet(JournalsOf(log), currency) == CreditsPosted(log, currency)
    decreases |log|
  {
    if log != [] {
      var n := |log| - 1;
      TotalsOfLog(log[..n], currency);
      assert JournalsOf(log)[..n] == JournalsOf(log[..n]);
      LinesBalance(log[n].cmd);
      NamedNetOfLines(log[n].cmd);
    }
  }

  /** In every reachable state and currency debits equal credits, and the customers together hold what the
      credit operations posted: payments net to zero. */
  lemma MoneyIsConserved(w: World, currency: string)
    requires Reachable(w)
    ensures DebitTotal(w.journals, currency) == CreditTotal(w.journals, currency)
    ensures CustomerNet(w.journals, currency) == CreditsPosted(w.log, currency)
  {
    ReachableInv(w);
    TotalsOfLog(w.log, currency);
  }

  lemma CommitRows(w: World, i: nat)
    requires Reachable(w) && i < |w.outbox|
    ensures i < |w.log| && i < |w.journals| && Exact(w.log[i].cmd.amount)
    ensures w.outbox[i] == EventOf(w.log[i]) && w.journals[i] == JournalOf(w.log[i])
  {
    ReachableInv(w);
    assert CommitSound(w, w.log[i]);
  }

  lemma EventAmount(c: Commit)
    ensures Debits(JournalOf(c).lines) == c.cmd.amount.Value()
    ensures EventOf(c).payload.millionths == Fixed6(c.cmd.amount.Value())
  {
    LinesBalance(c.cmd);
  }

  /** Every booked and published amount is an accepted one, so it is a binary64; published and posted
      agree exactly when it is a multiple of 1/64. */
  lemma PublishedAmountIsPosted(w: World, i: nat)
    requires Reachable(w) && i < |w.outbox|
    ensures i < |w.log| && i < |w.journals| && Binary64(w.log[i].cmd.amount)
    ensures var posted, millionths := Debits(w.journals[i].lines), w.outbox[i].payload.millionths;
            && posted == w.log[i].cmd.amount.Value()
            && millionths == Fixed6(posted)
            && (millionths as real == posted * 1000000.0 <==> Sixtyfourths(w.log[i].cmd.amount))
  {
    CommitRows(w, i);
    EventAmount(w.log[i]);
    ExactIffBinary64(w.log[i].cmd.amount);
    Fixed6ExactIffSixtyfourths(w.log[i].cmd.amount);
  }

  /** Commands that passed the request validators have at most six decimals: what is published of them is what
      was posted, to the last digit. */
  lemma ValidatedAmountIsPublishedExactly(w: World, i: nat)
    requires Reachable(w) && i < |w.outbox| && i < |w.log| && w.log[i].cmd.amount.scale <= 6
    ensures i < |w.journals| && w.outbox[i].payload.millionths as real == Debits(w.journals[i].lines) * 1000000.0
  {
    CommitRows(w, i);
    SixDecimalEvent(w.log[i]);
  }

  lemma SixDecimalEvent(c: Commit)
    requires Exact(c.cmd.amount) && c.cmd.amount.scale <= 6
    ensures EventOf(c).payload.millionths as real == Debits(JournalOf(c).lines) * 1000000.0
  {
    EventAmount(c);
    Fixed6ExactIffSixtyfourths(c.cmd.amount);
    SixDecimalsPrintExactly(c.cmd.amount);
  }
}
