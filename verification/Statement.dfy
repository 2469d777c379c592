/** An account's statement: journals projected to signed items, then enriched in one batch call. */
module Statement {
  import opened Common
  import opened Decimals
  import opened Entities
  import opened LedgerRules

  datatype Direction = InCredit | InDebit
  datatype Kind = Transfer | Bonus | Other

  datatype Counterparty = Counterparty(accountId: string, accountNumber: string, displayName: string, accountType: string)

  /** amount is the StringFixed(6) text as a count of millionths. */
  datatype Item = Item(journalId: Uuid, bookedAt: int, currency: string, direction: Direction, amount: int,
                       kind: Kind, memo: string, counterpartyId: string, counterparty: Option<Counterparty>)

  function RefOf(l: EntryLine): string {
    l.counterparty.GetOr("")
  }

  // --- What a line means for an account ---------------------------------------------------------------

  function CreditsFor(lines: seq<EntryLine>, account: string): real {
    if lines == [] then 0.0
    else
      var l := lines[|lines| - 1];
      CreditsFor(lines[..|lines| - 1], account) + (if RefOf(l) == account then l.credit else 0.0)
  }

  function DebitsFor(lines: seq<EntryLine>, account: string): real {
    if lines == [] then 0.0
    else
      var l := lines[|lines| - 1];
      DebitsFor(lines[..|lines| - 1], account) + (if RefOf(l) == account then l.debit else 0.0)
  }

  /** Credits less debits of the lines that name the account; "" stands for the lines that name none. */
  function NetFor(lines: seq<EntryLine>, account: string): real {
    CreditsFor(lines, account) - DebitsFor(lines, account)
  }

  /** The first other account the journal names. */
  function OtherParty(lines: seq<EntryLine>, account: string): string {
    if lines == [] then ""
    else
      var earlier, ref := OtherParty(lines[..|lines| - 1], account), RefOf(lines[|lines| - 1]);
      if earlier != "" || ref == account then earlier else ref
  }

  predicate NamesOther(l: EntryLine, account: string) {
    RefOf(l) != "" && RefOf(l) != account
  }

  ghost predicate FirstNaming(lines: seq<EntryLine>, i: int, account: string) {
    && 0 <= i < |lines| && NamesOther(lines[i], account)
    && forall k :: 0 <= k < i ==> !NamesOther(lines[k], account)
  }

  /** It is the first line's that names another account, and "" exactly if no line does. */
  lemma {:induction false} OtherPartyIs(lines: seq<EntryLine>, account: string)
    ensures OtherParty(lines, account) == "" <==> forall i :: 0 <= i < |lines| ==> !NamesOther(lines[i], account)
    ensures forall i :: FirstNaming(lines, i, account) ==> OtherParty(lines, account) == RefOf(lines[i])
    decreases |lines|
  {
    if lines != [] {
      var n := |lines| - 1;
      OtherPartyIs(lines[..n], account);
      assert forall i :: 0 <= i < n ==> lines[..n][i] == lines[i];
      forall i | FirstNaming(lines, i, account)
        ensures OtherParty(lines, account) == RefOf(lines[i])
      {
        assert i < n ==> FirstNaming(lines[..n], i, account);
      }
    }
  }

  predicate HasPrefix(s: string, prefix: string) {
    |prefix| <= |s| && s[..|prefix|] == prefix
  }

  predicate Contains(s: string, part: string) {
    exists i :: 0 <= i <= |s| && HasPrefix(s[i..], part)
  }

  function KindOf(memo: string): Kind {
    if HasPrefix(memo, "payment:") then Transfer
    else if HasPrefix(memo, "bonus:") || Contains(memo, "registration_bonus") then Bonus
    else Other
  }

  function AbsReal(x: real): real {
    if x < 0.0 then -x else x
  }

  function ItemOf(j: JournalEntry, account: string): Item {
    var net := NetFor(j.lines, account);
    Item(j.id, j.bookedAt, j.currency, if net < 0.0 then InDebit else InCredit, Fixed6(AbsReal(net)),
         KindOf(j.externalRef), j.externalRef, OtherParty(j.lines, account), None)
  }

  function Items(entries: seq<JournalEntry>, account: string): (items: seq<Item>)
    ensures |items| == |entries| && forall i :: 0 <= i < |entries| ==> items[i] == ItemOf(entries[i], account)
  {
    seq(|entries|, i requires 0 <= i < |entries| => ItemOf(entries[i], account))
  }

  /** The inner loop: the two totals and the other party of one journal. */
  method Totals(lines: seq<EntryLine>, account: string) returns (credit: real, debit: real, other: string)
    ensures credit == CreditsFor(lines, account) && debit == DebitsFor(lines, account)
    ensures other == OtherParty(lines, account)
  {
    credit, debit, other := 0.0, 0.0, "";
    for i := 0 to |lines|
      invariant credit == CreditsFor(lines[..i], account) && debit == DebitsFor(lines[..i], account)
      invariant other == OtherParty(lines[..i], account)
    {
      assert lines[..i + 1][..i] == lines[..i];
      var ref := "";
      if lines[i].counterparty.Some? {
        ref := lines[i].counterparty.value;
      }
      if ref == account {
        credit := credit + lines[i].credit;
        debit := debit + lines[i].debit;
        continue;
      }
      if ref != "" && ref != account && other == "" {
        other := ref;
      }
    }
    assert lines[..|lines|] == lines;
  }

  /** The base projection, with the ids the enrichment asks for. */
  method Project(entries: seq<JournalEntry>, account: string) returns (items: seq<Item>, ids: set<string>)
    ensures items == Items(entries, account)
    ensures ids == PartiesOf(items)
  {
    items, ids := [], {};
    for n := 0 to |entries|
      invariant items == Items(entries[..n], account)
      invariant ids == PartiesOf(items)
    {
      var j := entries[n];
      var credit, debit, other := Totals(j.lines, account);
      var net := credit - debit;
      var direction, amount := InCredit, net;
      if net < 0.0 {
        direction, amount := InDebit, -net;
      }
      var kind, memo := Kind.Other, j.externalRef;
      if HasPrefix(memo, "payment:") {
        kind := Transfer;
      } else if HasPrefix(memo, "bonus:") || Contains(memo, "registration_bonus") {
        kind := Bonus;
      }
      var item := Item(j.id, j.bookedAt, j.currency, direction, Fixed6(amount), kind, memo, other, None);
      PartiesAppend(items, item);
      if other != "" {
        ids := ids + {other};
      }
      items := items + [item];
    }
    assert entries[..|entries|] == entries;
  }

  /** The other accounts the items name. */
  function PartiesOf(items: seq<Item>): set<string> {
    set i | 0 <= i < |items| && items[i].counterpartyId != "" :: items[i].counterpartyId
  }

  lemma PartiesAppend(items: seq<Item>, item: Item)
    ensures PartiesOf(items + [item]) == PartiesOf(items) + if item.counterpartyId != "" then {item.counterpartyId} else {}
  {
    var items' := items + [item];
    forall id | id in PartiesOf(items)
      ensures id in PartiesOf(items')
    {
      var i :| 0 <= i < |items| && items[i].counterpartyId != "" && items[i].counterpartyId == id;
      assert items'[i].counterpartyId == id;
    }
    assert items'[|items|] == item;
  }

  // --- Items refine the ledger ---------------------------------------------------------------------------

  function SignedReal(direction: Direction, x: real): real {
    if direction == InCredit then x else -x
  }

  function Signed(item: Item): int {
    if item.direction == InCredit then item.amount else -item.amount
  }

  /** Read as a signed number, an item is the account's net in its journal, to six decimals. */
  lemma ItemIsNet(j: JournalEntry, account: string)
    ensures var item, net := ItemOf(j, account), NetFor(j.lines, account);
            && SignedReal(item.direction, AbsReal(net)) == net && item.amount >= 0
            && Signed(item) == Fixed6(net)
            && -0.5 <= Signed(item) as real - net * 1000000.0 <= 0.5
  {
    var net := NetFor(j.lines, account);
    Fixed6Odd(net);
    Fixed6Error(net);
    Fixed6Error(AbsReal(net));
  }

  /** Amounts as a numeric(20,6) column gives them back. */
  predicate WholeMillionths(x: real) {
    (x * 1000000.0).Floor as real == x * 1000000.0
  }

  predicate StoredLines(lines: seq<EntryLine>) {
    forall i :: 0 <= i < |lines| ==> WholeMillionths(lines[i].debit) && WholeMillionths(lines[i].credit)
  }

  lemma WholeSum(x: real, y: real)
    requires WholeMillionths(x) && WholeMillionths(y)
    ensures WholeMillionths(x + y) && WholeMillionths(x - y)
  {
    var a, b := (x * 1000000.0).Floor, (y * 1000000.0).Floor;
    assert ((a + b) as real).Floor == a + b && ((a - b) as real).Floor == a - b;
  }

  lemma {:induction false} StoredNet(lines: seq<EntryLine>, account: string)
    requires StoredLines(lines)
    ensures WholeMillionths(CreditsFor(lines, account)) && WholeMillionths(DebitsFor(lines, account))
    ensures WholeMillionths(NetFor(lines, account))
    decreases |lines|
  {
    if lines != [] {
      var n := |lines| - 1;
      StoredNet(lines[..n], account);
      WholeSum(CreditsFor(lines[..n], account), lines[n].credit);
      WholeSum(DebitsFor(lines[..n], account), lines[n].debit);
    }
    WholeSum(CreditsFor(lines, account), DebitsFor(lines, account));
  }

  lemma WholeIsExact(x: real)
    requires WholeMillionths(x)
    ensures Fixed6(x) as real == x * 1000000.0
  {
    Fixed6Error(x);
    NearestInteger(Fixed6(x), (x * 1000000.0).Floor);
  }

  lemma NearestInteger(n: int, m: int)
    requires -0.5 <= n as real - m as real <= 0.5
    ensures n == m
  {
    assert (n - m) as real == n as real - m as real;
  }

  function AccountNet(entries: seq<JournalEntry>, account: string, currency: string): real {
    if entries == [] then 0.0
    else
      var j := entries[|entries| - 1];
      AccountNet(entries[..|entries| - 1], account, currency) + NetIn(j, account, currency)
  }

  function NetIn(j: JournalEntry, account: string, currency: string): real {
    if j.currency == currency then NetFor(j.lines, account) else 0.0
  }

  function SignedTotal(items: seq<Item>, currency: string): int {
    if items == [] then 0
    else
      var last := items[|items| - 1];
      SignedTotal(items[..|items| - 1], currency) + (if last.currency == currency then Signed(last) else 0)
  }

  /** Over stored journals the printed items add up, to the last digit, to the account's net. */
  lemma {:induction false} ItemsAddUp(entries: seq<JournalEntry>, account: string, currency: string)
    requires forall i :: 0 <= i < |entries| ==> StoredLines(entries[i].lines)
    ensures SignedTotal(Items(entries, account), currency) as real == AccountNet(entries, account, currency) * 1000000.0
    decreases |entries|
  {
    if entries != [] {
      var n := |entries| - 1;
      ItemsAddUp(entries[..n], account, currency);
      assert Items(entries, account)[..n] == Items(entries[..n], account);
      StoredNet(entries[n].lines, account);
      WholeIsExact(NetFor(entries[n].lines, account));
      ItemIsNet(entries[n], account);
    }
  }

  // --- A complete history ----------------------------------------------------------------------------------

  predicate Names(j: JournalEntry, account: string) {
    exists i :: 0 <= i < |j.lines| && j.lines[i].counterparty == Some(account)
  }

  predicate Matches(j: JournalEntry, account: string, from: int, to: int) {
    Names(j, account) && from <= j.bookedAt <= to
  }

  function Matching(js: seq<JournalEntry>, account: string, from: int, to: int): seq<JournalEntry> {
    if js == [] then []
    else
      var j := js[|js| - 1];
      var earlier := Matching(js[..|js| - 1], account, from, to);
      if Matches(j, account, from, to) then earlier + [j] else earlier
  }

  predicate NewestFirst(entries: seq<JournalEntry>) {
    forall i, j :: 0 <= i < j < |entries| ==> entries[i].bookedAt >= entries[j].bookedAt
  }

  /** A result of the activity query: the matching journals, newest first, ties in any order. */
  ghost predicate IsActivity(entries: seq<JournalEntry>, js: seq<JournalEntry>, account: string, from: int, to: int) {
    NewestFirst(entries) && multiset(entries) == multiset(Matching(js, account, from, to))
  }

  lemma {:induction false} UnnamedNetsNothing(lines: seq<EntryLine>, account: string)
    requires account != "" && forall i :: 0 <= i < |lines| ==> lines[i].counterparty != Some(account)
    ensures NetFor(lines, account) == 0.0 && CreditsFor(lines, account) == 0.0
    decreases |lines|
  {
    if lines != [] {
      UnnamedNetsNothing(lines[..|lines| - 1], account);
    }
  }

  /** Journals that do not name the account leave its net alone. */
  lemma {:induction false} MatchingNet(js: seq<JournalEntry>, account: string, from: int, to: int, currency: string)
    requires account != "" && forall i :: 0 <= i < |js| ==> from <= js[i].bookedAt <= to
    ensures AccountNet(Matching(js, account, from, to), account, currency) == AccountNet(js, account, currency)
    decreases |js|
  {
    if js != [] {
      var n := |js| - 1;
      var earlier := Matching(js[..n], account, from, to);
      MatchingNet(js[..n], account, from, to, currency);
      if Matches(js[n], account, from, to) {
        assert (earlier + [js[n]])[..|earlier|] == earlier;
      } else {
        UnnamedNetsNothing(js[n].lines, account);
      }
    }
  }

  lemma {:induction false} NetWithout(entries: seq<JournalEntry>, k: nat, account: string, currency: string)
    requires k < |entries|
    ensures AccountNet(entries, account, currency) ==
            AccountNet(entries[..k] + entries[k + 1..], account, currency) + NetIn(entries[k], account, currency)
    decreases |entries|
  {
    var n := |entries| - 1;
    var rest := entries[..k] + entries[k + 1..];
    if k == n {
      assert rest == entries[..n];
    } else {
      NetWithout(entries[..n], k, account, currency);
      assert rest[..n - 1] == entries[..n][..k] + entries[..n][k + 1..];
      assert rest[n - 1] == entries[n];
    }
  }

  lemma {:induction false} NetIgnoresOrder(xs: seq<JournalEntry>, ys: seq<JournalEntry>, account: string, currency: string)
    requires multiset(xs) == multiset(ys)
    ensures AccountNet(xs, account, currency) == AccountNet(ys, account, currency)
    decreases |xs|
  {
    if xs == [] {
      assert |multiset(ys)| == 0;
    } else {
      var n := |xs| - 1;
      assert xs[n] in multiset(ys);
      var k :| 0 <= k < |ys| && ys[k] == xs[n];
      NetWithout(ys, k, account, currency);
      WithoutOne(xs, ys, k);
      NetIgnoresOrder(xs[..n], ys[..k] + ys[k + 1..], account, currency);
    }
  }

  lemma WithoutOne(xs: seq<JournalEntry>, ys: seq<JournalEntry>, k: nat)
    requires xs != [] && multiset(xs) == multiset(ys) && k < |ys| && ys[k] == xs[|xs| - 1]
    ensures multiset(xs[..|xs| - 1]) == multiset(ys[..k] + ys[k + 1..])
  {
    var n := |xs| - 1;
    assert xs == xs[..n] + [xs[n]];
    assert ys == ys[..k] + [ys[k]] + ys[k + 1..];
    assert multiset(xs) == multiset(xs[..n]) + multiset{xs[n]};
    assert multiset(ys) == multiset(ys[..k]) + multiset{ys[k]} + multiset(ys[k + 1..]);
    assert multiset(xs[..n]) == multiset(xs) - multiset{xs[n]};
  }

  /** A complete statement adds up to the account's net over the whole journal. */
  lemma StatementIsLedgerNet(entries: seq<JournalEntry>, js: seq<JournalEntry>, account: string, from: int, to: int,
                             currency: string)
    requires account != "" && IsActivity(entries, js, account, from, to)
    requires forall i :: 0 <= i < |js| ==> from <= js[i].bookedAt <= to && StoredLines(js[i].lines)
    ensures SignedTotal(Items(entries, account), currency) as real == AccountNet(js, account, currency) * 1000000.0
  {
    MatchingMembers(js, account, from, to);
    forall i | 0 <= i < |entries|
      ensures StoredLines(entries[i].lines)
    {
      assert entries[i] in multiset(entries);
      assert entries[i] in Matching(js, account, from, to);
    }
    ItemsAddUp(entries, account, currency);
    NetIgnoresOrder(entries, Matching(js, account, from, to), account, currency);
    MatchingNet(js, account, from, to, currency);
  }

  /** The journals with a line that names the account, booked between the dates. */
  lemma {:induction false} MatchingMembers(js: seq<JournalEntry>, account: string, from: int, to: int)
    ensures forall j :: j in Matching(js, account, from, to) <==>
              j in js && from <= j.bookedAt <= to && exists i :: 0 <= i < |j.lines| && j.lines[i].counterparty == Some(account)
    decreases |js|
  {
    if js != [] {
      MatchingMembers(js[..|js| - 1], account, from, to);
    }
  }

  // --- Pages -------------------------------------------------------------------------------------------------

  function PageSize(size: int): nat {
    if size <= 0 then 20 else size
  }

  function PageNumber(page: int): nat {
    if page <= 0 then 1 else page
  }

  function FirstOf(entries: seq<JournalEntry>, n: nat): seq<JournalEntry> {
    if n >= |entries| then entries else entries[..n]
  }

  /** OFFSET offset LIMIT limit. */
  function Slice(entries: seq<JournalEntry>, offset: nat, limit: nat): seq<JournalEntry> {
    if offset >= |entries| then [] else FirstOf(entries[offset..], limit)
  }

  function PageOf(entries: seq<JournalEntry>, page: int, size: int): seq<JournalEntry> {
    Slice(entries, (PageNumber(page) - 1) * PageSize(size), PageSize(size))
  }

  function PagesTo(entries: seq<JournalEntry>, pages: nat, size: int): seq<JournalEntry> {
    if pages == 0 then [] else PagesTo(entries, pages - 1, size) + PageOf(entries, pages, size)
  }

  lemma NextSlice(entries: seq<JournalEntry>, offset: nat, limit: nat)
    ensures FirstOf(entries, offset) + Slice(entries, offset, limit) == FirstOf(entries, offset + limit)
  {
  }

  /** The first pages, read one after the other, are a prefix of the activity: nothing twice, nothing missed. */
  lemma {:induction false} PagesTile(entries: seq<JournalEntry>, pages: nat, size: int)
    ensures 0 <= pages * PageSize(size)
    ensures PagesTo(entries, pages, size) == FirstOf(entries, pages * PageSize(size))
    ensures PageSize(size) == (if size <= 0 then 20 else size) && (size > 0 ==> PageOf(entries, 0, size) == PageOf(entries, 1, size))
  {
    if pages > 0 {
      PagesTile(entries, pages - 1, size);
      OneMorePage(pages, PageSize(size));
      NextSlice(entries, (pages - 1) * PageSize(size), PageSize(size));
    }
  }

  lemma OneMorePage(pages: nat, limit: nat)
    requires pages > 0
    ensures pages * limit == (pages - 1) * limit + limit
  {
  }

  // --- Pages of separate queries -----------------------------------------------------------------------------

  /** Two results of one query: the same journals, newest first. */
  ghost predicate SameActivity(xs: seq<JournalEntry>, ys: seq<JournalEntry>) {
    NewestFirst(xs) && NewestFirst(ys) && multiset(xs) == multiset(ys)
  }

  predicate NoTies(entries: seq<JournalEntry>) {
    forall i, j :: 0 <= i < j < |entries| && entries[i].bookedAt == entries[j].bookedAt ==> entries[i] == entries[j]
  }

  lemma SameLast(xs: seq<JournalEntry>, ys: seq<JournalEntry>)
    requires SameActivity(xs, ys) && NoTies(xs) && xs != [] && ys != []
    ensures xs[|xs| - 1] == ys[|ys| - 1]
  {
    var x, y := xs[|xs| - 1], ys[|ys| - 1];
    assert x in multiset(ys) && y in multiset(xs);
    var i :| 0 <= i < |xs| && xs[i] == y;
    var j :| 0 <= j < |ys| && ys[j] == x;
    assert xs[i].bookedAt >= x.bookedAt && ys[j].bookedAt >= y.bookedAt;
  }

  lemma WithoutLast(xs: seq<JournalEntry>)
    requires xs != []
    ensures multiset(xs[..|xs| - 1]) == multiset(xs) - multiset{xs[|xs| - 1]}
  {
    assert xs == xs[..|xs| - 1] + [xs[|xs| - 1]];
  }

  lemma SameButLast(xs: seq<JournalEntry>, ys: seq<JournalEntry>)
    requires |xs| == |ys| > 0 && xs[..|xs| - 1] == ys[..|ys| - 1] && xs[|xs| - 1] == ys[|ys| - 1]
    ensures xs == ys
  {
    forall k | 0 <= k < |xs| - 1
      ensures xs[k] == ys[k]
    {
      assert xs[..|xs| - 1][k] == ys[..|ys| - 1][k];
    }
  }

  lemma {:induction false} OnlyOrder(xs: seq<JournalEntry>, ys: seq<JournalEntry>)
    requires SameActivity(xs, ys) && NoTies(xs)
    ensures xs == ys
    decreases |xs|
  {
    assert |xs| == |multiset(xs)| == |multiset(ys)| == |ys|;
    if xs != [] {
      SameLast(xs, ys);
      WithoutLast(xs);
      WithoutLast(ys);
      OnlyOrder(xs[..|xs| - 1], ys[..|ys| - 1]);
      SameButLast(xs, ys);
    }
  }

  lemma TiesSwap(xs: seq<JournalEntry>, i: nat, j: nat)
    requires NewestFirst(xs) && i < j < |xs| && xs[i].bookedAt == xs[j].bookedAt && xs[i] != xs[j]
    ensures SameActivity(xs, xs[i := xs[j]][j := xs[i]]) && xs[i := xs[j]][j := xs[i]] != xs
  {
    var ys := xs[i := xs[j]][j := xs[i]];
    assert ys[i] != xs[i];
    forall k, l | 0 <= k < l < |ys|
      ensures ys[k].bookedAt >= ys[l].bookedAt
    {
      assert ys[k].bookedAt == xs[k].bookedAt && ys[l].bookedAt == xs[l].bookedAt;
    }
  }

  /** The query can answer in one order only exactly when no two different journals were booked at one instant. */
  lemma OneOrderIff(xs: seq<JournalEntry>)
    requires NewestFirst(xs)
    ensures (forall ys :: SameActivity(xs, ys) ==> ys == xs) <==> NoTies(xs)
  {
    if NoTies(xs) {
      forall ys | SameActivity(xs, ys)
        ensures ys == xs
      {
        OnlyOrder(xs, ys);
      }
    } else {
      var i, j :| 0 <= i < j < |xs| && xs[i].bookedAt == xs[j].bookedAt && xs[i] != xs[j];
      TiesSwap(xs, i, j);
    }
  }

  /** Page after page, each from a query of its own. */
  function PagesOf(results: seq<seq<JournalEntry>>, size: int): seq<JournalEntry> {
    if results == [] then []
    else
      var n := |results| - 1;
      PagesOf(results[..n], size) + PageOf(results[n], n + 1, size)
  }

  lemma {:induction false} PagesOfOne(results: seq<seq<JournalEntry>>, entries: seq<JournalEntry>, size: int)
    requires forall k :: 0 <= k < |results| ==> results[k] == entries
    ensures PagesOf(results, size) == PagesTo(entries, |results|, size)
    decreases |results|
  {
    if results != [] {
      PagesOfOne(results[..|results| - 1], entries, size);
    }
  }

  /** Without ties pages of separate queries repeat nothing and miss nothing. */
  lemma SeparatePagesTile(results: seq<seq<JournalEntry>>, entries: seq<JournalEntry>, size: int)
    requires NewestFirst(entries) && NoTies(entries)
    requires forall k :: 0 <= k < |results| ==> SameActivity(entries, results[k])
    ensures 0 <= |results| * PageSize(size)
    ensures PagesOf(results, size) == FirstOf(entries, |results| * PageSize(size))
  {
    forall k | 0 <= k < |results|
      ensures results[k] == entries
    {
      OnlyOrder(entries, results[k]);
    }
    PagesOfOne(results, entries, size);
    PagesTile(entries, |results|, size);
  }

  /** Two journals booked at one instant: two pages of one item can show the first twice and the second never. */
  lemma TiedPagesRepeat(a: JournalEntry, b: JournalEntry)
    requires a.bookedAt == b.bookedAt
    ensures SameActivity([a, b], [b, a]) && PagesOf([[a, b], [b, a]], 1) == [a, a]
  {
    var results := [[a, b], [b, a]];
    assert results[..1] == [[a, b]] && [[a, b]][..0] == [];
    assert PageOf([a, b], 1, 1) == [a] && PageOf([b, a], 2, 1) == [a];
    assert PagesOf([[a, b]], 1) == [] + [a];
  }

  // --- Nets across accounts ------------------------------------------------------------------------------------

  predicate NoDuplicates(xs: seq<string>) {
    forall i, j :: 0 <= i < j < |xs| ==> xs[i] != xs[j]
  }

  function NetsOf(lines: seq<EntryLine>, accounts: seq<string>): real {
    if accounts == [] then 0.0
    else NetsOf(lines, accounts[..|accounts| - 1]) + NetFor(lines, accounts[|accounts| - 1])
  }

  lemma {:induction false} NetsOfNext(lines: seq<EntryLine>, accounts: seq<string>)
    requires lines != [] && NoDuplicates(accounts)
    ensures var n := |lines| - 1;
            NetsOf(lines, accounts) == NetsOf(lines[..n], accounts)
              + (if RefOf(lines[n]) in accounts then lines[n].credit - lines[n].debit else 0.0)
    decreases |accounts|
  {
    if accounts != [] {
      NetsOfNext(lines, accounts[..|accounts| - 1]);
      assert forall a :: a in accounts <==> a in accounts[..|accounts| - 1] || a == accounts[|accounts| - 1];
    }
  }

  lemma {:induction false} NetsOfNone(accounts: seq<string>)
    ensures NetsOf([], accounts) == 0.0
    decreases |accounts|
  {
    if accounts != [] {
      NetsOfNone(accounts[..|accounts| - 1]);
    }
  }

  /** The nets of all accounts a journal names, with those of its unnamed lines, are its credits less its debits. */
  lemma {:induction false} NetsAddUp(lines: seq<EntryLine>, accounts: seq<string>)
    requires NoDuplicates(accounts) && "" !in accounts
    requires forall i :: 0 <= i < |lines| ==> RefOf(lines[i]) == "" || RefOf(lines[i]) in accounts
    ensures NetsOf(lines, accounts) + NetFor(lines, "") == Credits(lines) - Debits(lines)
    decreases |lines|
  {
    if lines == [] {
      NetsOfNone(accounts);
    } else {
      NetsOfNext(lines, accounts);
      NetsAddUp(lines[..|lines| - 1], accounts);
    }
  }

  /** So they sum to zero exactly in a balanced journal. */
  lemma NetsSumToZeroIffBalanced(lines: seq<EntryLine>, accounts: seq<string>)
    requires NoDuplicates(accounts) && "" !in accounts
    requires forall i :: 0 <= i < |lines| ==> RefOf(lines[i]) == "" || RefOf(lines[i]) in accounts
    ensures NetsOf(lines, accounts) + NetFor(lines, "") == 0.0 <==> Balanced(lines)
  {
    NetsAddUp(lines, accounts);
  }

  // --- The two statements of a payment -------------------------------------------------------------------------

  lemma TwoLineNet(a: EntryLine, b: EntryLine, account: string)
    ensures NetFor([a, b], account) == (if RefOf(a) == account then a.credit - a.debit else 0.0)
                                     + (if RefOf(b) == account then b.credit - b.debit else 0.0)
    ensures OtherParty([a, b], account) == if RefOf(a) != account && RefOf(a) != "" then RefOf(a)
                                           else if RefOf(b) != account then RefOf(b) else ""
  {
    assert [a, b][..1] == [a] && [a][..0] == [];
    assert CreditsFor([a], account) == if RefOf(a) == account then a.credit else 0.0;
    assert DebitsFor([a], account) == if RefOf(a) == account then a.debit else 0.0;
    assert OtherParty([a], account) == if RefOf(a) == account then "" else RefOf(a);
  }

  ghost predicate Mirrored(c: Commit)
    requires c.cmd.PostPayment?
  {
    var from, to := ItemOf(JournalOf(c), c.cmd.source), ItemOf(JournalOf(c), c.cmd.destination);
    && from.direction == InDebit && to.direction == InCredit && from.amount == to.amount
    && from.counterpartyId == c.cmd.destination && to.counterpartyId == c.cmd.source
    && from.kind == to.kind == Transfer && from.memo == to.memo && from.currency == to.currency
  }

  /** The payer sees a debit to the payee and the payee the same amount as a credit from the payer, exactly
      when they are two accounts and the amount is positive. */
  lemma PaymentMirrorsIff(c: Commit)
    requires c.cmd.PostPayment?
    ensures Mirrored(c) <==> c.cmd.source != c.cmd.destination && c.cmd.amount.Value() > 0.0
  {
    var lines := Lines(c.cmd);
    TwoLineNet(lines[0], lines[1], c.cmd.source);
    TwoLineNet(lines[0], lines[1], c.cmd.destination);
    PaymentIsTransfer(c);
  }

  lemma PaymentIsTransfer(c: Commit)
    requires c.cmd.PostPayment?
    ensures KindOf(JournalOf(c).externalRef) == Transfer
  {
    assert ("payment:" + c.id)[..|"payment:"|] == "payment:";
  }

  // --- Enrichment ----------------------------------------------------------------------------------------------

  /** What the batch call answers for one account. */
  datatype Summary = Summary(accountId: string, accountNumber: string, displayName: string, productType: string)

  function ViewOf(a: Summary): Counterparty {
    Counterparty(a.accountId, a.accountNumber, a.displayName, a.productType)
  }

  /** The last summary of an account. */
  function LastFor(accounts: seq<Summary>, id: string): Option<Counterparty> {
    if accounts == [] then None
    else
      var last := accounts[|accounts| - 1];
      if last.accountId == id then Some(ViewOf(last)) else LastFor(accounts[..|accounts| - 1], id)
  }

  /** Asked one by one, each item gets the last summary of its own counterparty. */
  function Enriched(item: Item, accounts: seq<Summary>): Item {
    if item.counterpartyId == "" || LastFor(accounts, item.counterpartyId).None? then item
    else item.(counterparty := LastFor(accounts, item.counterpartyId))
  }

  function AllEnriched(items: seq<Item>, accounts: seq<Summary>): (items': seq<Item>)
    ensures |items'| == |items| && forall i :: 0 <= i < |items| ==> items'[i] == Enriched(items[i], accounts)
  {
    seq(|items|, i requires 0 <= i < |items| => Enriched(items[i], accounts))
  }

  ghost predicate IsLastFor(accounts: seq<Summary>, k: int, id: string) {
    && 0 <= k < |accounts| && accounts[k].accountId == id
    && forall m :: k < m < |accounts| ==> accounts[m].accountId != id
  }

  lemma {:induction false} LastForIff(accounts: seq<Summary>, id: string)
    ensures LastFor(accounts, id).Some? <==> exists k :: 0 <= k < |accounts| && accounts[k].accountId == id
    decreases |accounts|
  {
    if accounts != [] {
      var n := |accounts| - 1;
      LastForIff(accounts[..n], id);
      if LastFor(accounts[..n], id).Some? {
        var k :| 0 <= k < n && accounts[..n][k].accountId == id;
        assert accounts[k].accountId == id;
      }
      if k :| 0 <= k < |accounts| && accounts[k].accountId == id {
        assert k < n ==> accounts[..n][k].accountId == id;
      }
    }
  }

  /** Of several summaries of one account the last one counts. */
  lemma {:induction false} LastForIs(accounts: seq<Summary>, k: nat, id: string)
    requires IsLastFor(accounts, k, id)
    ensures LastFor(accounts, id) == Some(ViewOf(accounts[k]))
    decreases |accounts|
  {
    if k < |accounts| - 1 {
      LastForIs(accounts[..|accounts| - 1], k, id);
    }
  }

  /** Enrichment touches only the counterparty, and sets it exactly for items whose account was answered. */
  lemma EnrichmentIff(item: Item, accounts: seq<Summary>)
    requires item.counterparty.None?
    ensures Enriched(item, accounts).(counterparty := None) == item
    ensures Enriched(item, accounts).counterparty.Some? <==>
            item.counterpartyId != "" && exists k :: 0 <= k < |accounts| && accounts[k].accountId == item.counterpartyId
    ensures Enriched(item, accounts).counterparty.Some? ==>
              Enriched(item, accounts).counterparty.value.accountId == item.counterpartyId
  {
    LastForIff(accounts, item.counterpartyId);
    LastForId(accounts, item.counterpartyId);
  }

  lemma {:induction false} LastForId(accounts: seq<Summary>, id: string)
    ensures LastFor(accounts, id).Some? ==> LastFor(accounts, id).value.accountId == id
    decreases |accounts|
  {
    if accounts != [] {
      LastForId(accounts[..|accounts| - 1], id);
    }
  }

  /** A set in whatever order the runtime iterates it. */
  ghost predicate IsOrderOf(ids: seq<string>, all: set<string>) {
    NoDuplicates(ids) && forall id :: id in ids <==> id in all
  }

  method Listed(all: set<string>) returns (ids: seq<string>)
    ensures IsOrderOf(ids, all)
  {
    ids := [];
    var left := all;
    while left != {}
      invariant left <= all && NoDuplicates(ids)
      invariant forall id :: id in ids <==> id in all && id !in left
      decreases left
    {
      var id :| id in left;
      ids := ids + [id];
      left := left - {id};
    }
  }

  /** The lookup table and the pass over the items, in place. */
  method Enrich(items: array<Item>, accounts: seq<Summary>)
    modifies items
    ensures items[..] == AllEnriched(old(items[..]), accounts)
  {
    var lookup: map<string, Counterparty> := map[];
    for k := 0 to |accounts|
      invariant forall id :: LastFor(accounts[..k], id) == if id in lookup then Some(lookup[id]) else None
    {
      assert accounts[..k + 1][..k] == accounts[..k];
      lookup := lookup[accounts[k].accountId := ViewOf(accounts[k])];
    }
    assert accounts[..|accounts|] == accounts;
    for i := 0 to items.Length
      invariant forall n :: 0 <= n < i ==> items[n] == Enriched(old(items[n]), accounts)
      invariant forall n :: i <= n < items.Length ==> items[n] == old(items[n])
    {
      var id := items[i].counterpartyId;
      if id == "" {
        continue;
      }
      if id in lookup {
        items[i] := items[i].(counterparty := Some(lookup[id]));
      }
    }
  }

  /** A statement request; a missing date is None. */
  datatype Query = Query(account: string, from: Option<int>, to: Option<int>, page: int, size: int, withCounterparty: bool)

  datatype Result = Result(items: seq<Item>, page: int, size: int)

  /** The zero time, before every booking. */
  const ZERO_TIME := -62135596800000

  // --- What an item shows, field by field -------------------------------------------------------------------

  /** A text starts with another, or has it somewhere. */
  lemma TextsAre(s: string, part: string)
    ensures HasPrefix(s, part) <==> exists rest :: s == part + rest
    ensures Contains(s, part) <==> exists before, rest :: s == before + part + rest
  {
    PrefixIs(s, part);
    if i :| 0 <= i <= |s| && HasPrefix(s[i..], part) {
      HeldIs(s, part, i);
    }
    if before, rest :| s == before + part + rest {
      HeldAt(s, before, part, rest);
    }
  }

  lemma HeldIs(s: string, part: string, i: nat)
    requires i <= |s| && HasPrefix(s[i..], part)
    ensures s == s[..i] + part + s[i + |part|..]
  {
    assert s[i..][..|part|] == part;
  }

  lemma HeldAt(s: string, before: string, part: string, rest: string)
    requires s == before + part + rest
    ensures Contains(s, part)
  {
    assert HasPrefix(s[|before|..], part);
  }

  lemma PrefixIs(s: string, part: string)
    ensures HasPrefix(s, part) <==> exists rest :: s == part + rest
  {
    if HasPrefix(s, part) {
      assert s == part + s[|part|..];
    }
    if rest :| s == part + rest {
      assert s[..|part|] == part;
    }
  }

  /** The item tells of this journal and of what the lines that name the account come to. */
  ghost predicate Shows(item: Item, j: JournalEntry, account: string) {
    var net := CreditsFor(j.lines, account) - DebitsFor(j.lines, account);
    && item.journalId == j.id && item.bookedAt == j.bookedAt && item.currency == j.currency
    && item.memo == j.externalRef
    && item.direction == (if net < 0.0 then InDebit else InCredit)
    && item.amount == Fixed6(if net < 0.0 then -net else net)
    && (item.kind == Transfer <==> HasPrefix(j.externalRef, "payment:"))
    && (item.kind == Bonus <==>
          && !HasPrefix(j.externalRef, "payment:")
          && (HasPrefix(j.externalRef, "bonus:") || Contains(j.externalRef, "registration_bonus")))
    && (item.counterpartyId == "" <==> forall i :: 0 <= i < |j.lines| ==> !NamesOther(j.lines[i], account))
    && (forall i :: FirstNaming(j.lines, i, account) ==> j.lines[i].counterparty == Some(item.counterpartyId))
  }

  lemma ItemShows(j: JournalEntry, account: string)
    ensures Shows(ItemOf(j, account), j, account)
  {
    OtherPartyIs(j.lines, account);
  }

  /** The item has the last summary of its counterparty, and none without one. */
  ghost predicate ShowsAnswer(item: Item, accounts: seq<Summary>) {
    && (item.counterparty.Some? <==> item.counterpartyId != "" && exists k :: 0 <= k < |accounts| && accounts[k].accountId == item.counterpartyId)
    && (forall k :: item.counterparty.Some? && IsLastFor(accounts, k, item.counterpartyId) ==>
          item.counterparty == Some(Counterparty(accounts[k].accountId, accounts[k].accountNumber, accounts[k].displayName,
                                                 accounts[k].productType)))
  }

  lemma {:induction false} HasLast(accounts: seq<Summary>, id: string) returns (k: nat)
    requires exists i :: 0 <= i < |accounts| && accounts[i].accountId == id
    ensures IsLastFor(accounts, k, id)
    decreases |accounts|
  {
    k := |accounts| - 1;
    if accounts[k].accountId != id {
      var i :| 0 <= i < |accounts| && accounts[i].accountId == id;
      var rest := accounts[..k];
      assert rest[i].accountId == id;
      k := HasLast(rest, id);
      assert forall m :: 0 <= m < |rest| ==> rest[m] == accounts[m];
    }
  }

  lemma EnrichedShows(item: Item, accounts: seq<Summary>)
    requires item.counterparty.None?
    ensures ShowsAnswer(Enriched(item, accounts), accounts)
    ensures Enriched(item, accounts).(counterparty := None) == item
  {
    LastForIff(accounts, item.counterpartyId);
    forall k | IsLastFor(accounts, k, item.counterpartyId)
      ensures LastFor(accounts, item.counterpartyId) ==
              Some(Counterparty(accounts[k].accountId, accounts[k].accountNumber, accounts[k].displayName, accounts[k].productType))
    {
      LastForIs(accounts, k, item.counterpartyId);
    }
  }

  ghost predicate ShowsAll(items: seq<Item>, entries: seq<JournalEntry>, account: string) {
    |items| == |entries| && forall n :: 0 <= n < |items| ==> Shows(items[n], entries[n], account)
  }

  lemma ItemsShow(entries: seq<JournalEntry>, account: string, accounts: seq<Summary>)
    ensures ShowsAll(Items(entries, account), entries, account)
    ensures var items := AllEnriched(Items(entries, account), accounts);
            ShowsAll(items, entries, account) && forall n :: 0 <= n < |items| ==> ShowsAnswer(items[n], accounts)
  {
    forall n | 0 <= n < |entries|
      ensures Shows(ItemOf(entries[n], account), entries[n], account)
      ensures ShowsAnswer(Enriched(ItemOf(entries[n], account), accounts), accounts)
      ensures Enriched(ItemOf(entries[n], account), accounts).(counterparty := None) == ItemOf(entries[n], account)
    {
      ItemShows(entries[n], account);
      EnrichedShows(ItemOf(entries[n], account), accounts);
    }
  }

  /** Each counterparty of the items is asked for once. */
  ghost predicate AsksFor(asked: seq<string>, items: seq<Item>) {
    && (forall i, j :: 0 <= i < j < |asked| ==> asked[i] != asked[j])
    && (forall id :: id in asked <==> id != "" && exists n :: 0 <= n < |items| && items[n].counterpartyId == id)
  }

  /** The statement of one page. activity answers (account, from, to, page, size) with the journals or fails; batch
      answers a request with the summaries or fails, which only loses the counterparties. A missing from is the zero
      time of Go, a page that is not positive is the first, a size that is not positive is 20. */
  method ListAccountStatement(q: Query, now: int, activity: (string, int, int, nat, nat) -> Option<seq<JournalEntry>>,
                              batch: seq<string> -> Option<seq<Summary>>)
    returns (result: Option<Result>, asked: seq<string>)
    ensures var page, size := if q.page <= 0 then 1 else q.page, if q.size <= 0 then 20 else q.size;
            var entries := activity(q.account, if q.from.Some? then q.from.value else -62135596800000,
                                    if q.to.Some? then q.to.value else now, page, size);
            if entries.None? then result.None? && asked == []
            else
              && result.Some? && result.value.page == page && result.value.size == size
              && ShowsAll(result.value.items, entries.value, q.account)
              && (if q.withCounterparty then AsksFor(asked, result.value.items) else asked == [])
              && forall n :: 0 <= n < |result.value.items| ==>
                   if asked == [] || batch(asked).None? then result.value.items[n].counterparty.None?
                   else ShowsAnswer(result.value.items[n], batch(asked).value)
  {
    var from, to, page, size := ZERO_TIME, now, q.page, q.size;
    if q.from.Some? {
      from := q.from.value;
    }
    if q.to.Some? {
      to := q.to.value;
    }
    if page <= 0 {
      page := 1;
    }
    if size <= 0 {
      size := 20;
    }
    var entries := activity(q.account, from, to, page, size);
    if entries.None? {
      return None, [];
    }
    var items;
    items, asked := ListItems(entries.value, q.account, q.withCounterparty, batch);
    ItemsShow(entries.value, q.account, batch(asked).GetOr([]));
    AskedIs(asked, entries.value, q.account, q.withCounterparty, items);
    return Some(Result(items, page, size)), asked;
  }

  lemma AskedIs(asked: seq<string>, entries: seq<JournalEntry>, account: string, withCounterparty: bool, items: seq<Item>)
    requires IsOrderOf(asked, if withCounterparty then PartiesOf(Items(entries, account)) else {})
    requires |items| == |entries|
    requires forall n :: 0 <= n < |items| ==> items[n].counterpartyId == ItemOf(entries[n], account).counterpartyId
    ensures if withCounterparty then AsksFor(asked, items) else asked == []
  {
    assert asked == [] || asked[0] in asked;
    if withCounterparty {
      forall id
        ensures id in asked <==> id != "" && exists n :: 0 <= n < |items| && items[n].counterpartyId == id
      {
        var base := Items(entries, account);
        if id in PartiesOf(base) {
          var n :| 0 <= n < |base| && base[n].counterpartyId != "" && base[n].counterpartyId == id;
          assert items[n].counterpartyId == id;
        }
        if n :| 0 <= n < |items| && items[n].counterpartyId == id && id != "" {
          assert base[n].counterpartyId == id;
        }
      }
    }
  }

  method ListItems(entries: seq<JournalEntry>, account: string, withCounterparty: bool,
                   batch: seq<string> -> Option<seq<Summary>>)
    returns (items: seq<Item>, asked: seq<string>)
    ensures IsOrderOf(asked, if withCounterparty then PartiesOf(Items(entries, account)) else {})
    ensures items == if asked == [] then Items(entries, account)
                     else AllEnriched(Items(entries, account), batch(asked).GetOr([]))
  {
    var base, ids := Project(entries, account);
    if !withCounterparty || |ids| == 0 {
      return base, [];
    }
    asked := Listed(ids);
    var page := new Item[|base|](i requires 0 <= i < |base| => base[i]);
    assert page[..] == base;
    Enrich(page, batch(asked).GetOr([]));
    items := page[..];
    var id :| id in ids;
    assert id in asked;
  }

  /** A failed batch call gives the same items as not asking for counterparties. */
  lemma FailedBatchIsNoBatch(items: seq<Item>)
    ensures AllEnriched(items, []) == items
  {
  }
}
