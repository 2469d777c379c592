/** The double-entry rule every journal passes before it is inserted. */
module LedgerRules {
  import opened Entities

  function Debits(lines: seq<EntryLine>): real {
    if lines == [] then 0.0 else Debits(lines[..|lines| - 1]) + lines[|lines| - 1].debit
  }

  function Credits(lines: seq<EntryLine>): real {
    if lines == [] then 0.0 else Credits(lines[..|lines| - 1]) + lines[|lines| - 1].credit
  }

  predicate Balanced(lines: seq<EntryLine>) {
    Debits(lines) == Credits(lines)
  }

  method EnsureBalanced(lines: seq<EntryLine>) returns (ok: bool)
    ensures ok <==> Balanced(lines)
  {
    var d, c := 0.0, 0.0;
    for i := 0 to |lines|
      invariant d == Debits(lines[..i]) && c == Credits(lines[..i])
    {
      assert lines[..i + 1][..i] == lines[..i];
      d := d + lines[i].debit;
      c := c + lines[i].credit;
    }
    assert lines[..|lines|] == lines;
    ok := d == c;
  }

  lemma TwoLines(a: EntryLine, b: EntryLine)
    ensures Debits([a, b]) == a.debit + b.debit
    ensures Credits([a, b]) == a.credit + b.credit
  {
    assert [a, b][..1] == [a] && [a][..0] == [];
    assert Debits([a]) == a.debit && Credits([a]) == a.credit;
  }

  /** The two lines of every command balance, so the rule never rejects a payment or a credit. */
  lemma LinesBalance(cmd: Command)
    ensures Debits(Lines(cmd)) == cmd.amount.Value() == Credits(Lines(cmd))
  {
    TwoLines(Lines(cmd)[0], Lines(cmd)[1]);
  }
}
