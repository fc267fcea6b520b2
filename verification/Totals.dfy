/** The derived totals: an account's balance, a currency's two sides, and how they agree. */
module Totals {
  import opened Text
  import opened Book

  // --------------------------------------------------------- account_balances

  datatype Balance = Balance(code: string, name: string, kind: Kind, currency: string, amount: int, postings: nat)

  /** One row of the view: the lateral aggregate over an account's postings. */
  function BalanceRow(ps: seq<Posting>, a: Account): Balance {
    Balance(a.code, a.name, a.kind, a.currency, Net(On(ps, a.id)), |On(ps, a.id)|)
  }

  /** A code no account holds is refused, never answered with a zero balance. */
  function BalanceOf(t: Tables, code: string): (r: Option<Balance>)
    ensures r.None? <==> forall a :: a in t.accounts ==> a.code != code
  {
    var a := FindAccount(t.accounts, code);
    if a.None? then None else Some(BalanceRow(t.postings, a.value))
  }

  // ------------------------------------------------------------ TrialBalance

  /** A row of accounts LEFT JOIN postings: an account with none appears once, with NULLs. */
  datatype Joined = Joined(account: Account, posting: Option<Posting>)

  function Paired(a: Account, ps: seq<Posting>): seq<Joined> {
    if ps == [] then [] else Paired(a, ps[..|ps| - 1]) + [Joined(a, Some(ps[|ps| - 1]))]
  }

  function RowsFor(a: Account, ps: seq<Posting>): seq<Joined> {
    if On(ps, a.id) == [] then [Joined(a, None)] else Paired(a, On(ps, a.id))
  }

  function LeftJoin(accounts: seq<Account>, ps: seq<Posting>): seq<Joined> {
    if accounts == [] then []
    else LeftJoin(accounts[..|accounts| - 1], ps) + RowsFor(accounts[|accounts| - 1], ps)
  }

  /** GROUP BY a.currency. */
  function InCurrency(rows: seq<Joined>, currency: string): seq<Joined> {
    if rows == [] then []
    else
      var last := rows[|rows| - 1];
      InCurrency(rows[..|rows| - 1], currency) + if last.account.currency == currency then [last] else []
  }

  /** The three sums a currency is reported with: all of it, its positive legs, and its
      negative legs as a positive number. */
  datatype Side = Both | DebitSide | CreditSide | Counted

  function Share(side: Side, x: int): int {
    match side
    case Both => x
    case DebitSide => if x > 0 then x else 0
    case CreditSide => if x < 0 then -x else 0
    case Counted => 1
  }

  /** One aggregate over a group; NULLs are passed over. */
  function Over(rows: seq<Joined>, side: Side): int {
    if rows == [] then 0
    else
      var last := rows[|rows| - 1];
      Over(rows[..|rows| - 1], side) +
      if last.posting.Some? then Share(side, last.posting.value.amount as int) else 0
  }

  function PostingsOver(rows: seq<Joined>): nat {
    if rows == [] then 0
    else PostingsOver(rows[..|rows| - 1]) + if rows[|rows| - 1].posting.Some? then 1 else 0
  }

  datatype Trial = Trial(currency: string, debits: int, credits: int, net: int, accounts: nat, postings: nat) {
    predicate Balanced() { net == 0 }
  }

  function TrialRow(t: Tables, currency: string): Trial {
    var rows := InCurrency(LeftJoin(t.accounts, t.postings), currency);
    Trial(currency, Over(rows, DebitSide), Over(rows, CreditSide), Over(rows, Both),
          |set row | row in rows :: row.account.id|, PostingsOver(rows))
  }

  function Currencies(t: Tables): set<string> { set a | a in t.accounts :: a.currency }


  // -------------------------------------------------- the two sides are one sum

  lemma {:induction false} NetIsDebitsLessCredits(rows: seq<Joined>)
    ensures Over(rows, Both) == Over(rows, DebitSide) - Over(rows, CreditSide)
  {
    if rows == [] {
    } else {
      NetIsDebitsLessCredits(rows[..|rows| - 1]);
    }
  }

  lemma {:induction false} InCurrencyConcat(a: seq<Joined>, b: seq<Joined>, currency: string)
    ensures InCurrency(a + b, currency) == InCurrency(a, currency) + InCurrency(b, currency)
    decreases |b|
  {
    if b == [] {
      assert a + b == a;
    } else {
      InCurrencyConcat(a, b[..|b| - 1], currency);
      assert (a + b)[..|a + b| - 1] == a + b[..|b| - 1];
    }
  }

  lemma {:induction false} OverConcat(a: seq<Joined>, b: seq<Joined>, side: Side)
    ensures Over(a + b, side) == Over(a, side) + Over(b, side)
    decreases |b|
  {
    if b == [] {
      assert a + b == a;
    } else {
      OverConcat(a, b[..|b| - 1], side);
      assert (a + b)[..|a + b| - 1] == a + b[..|b| - 1];
    }
  }

  /** The same aggregate over bare postings. */
  function Part(ps: seq<Posting>, side: Side): int {
    if ps == [] then 0 else Part(ps[..|ps| - 1], side) + Share(side, ps[|ps| - 1].amount as int)
  }

  lemma {:induction false} PartIsNet(ps: seq<Posting>)
    ensures Part(ps, Both) == Net(ps)
  {
    if ps == [] {
    } else {
      PartIsNet(ps[..|ps| - 1]);
    }
  }

  lemma {:induction false} PartConcat(a: seq<Posting>, b: seq<Posting>, side: Side)
    ensures Part(a + b, side) == Part(a, side) + Part(b, side)
    decreases |b|
  {
    if b == [] {
      assert a + b == a;
    } else {
      PartConcat(a, b[..|b| - 1], side);
      assert (a + b)[..|a + b| - 1] == a + b[..|b| - 1];
    }
  }

  lemma {:induction false} PairedMeans(a: Account, ps: seq<Posting>, side: Side)
    ensures |Paired(a, ps)| == |ps|
    ensures Over(Paired(a, ps), side) == Part(ps, side) && PostingsOver(Paired(a, ps)) == |ps|
    ensures forall row :: row in Paired(a, ps) ==> row.account == a
  {
    if ps == [] {
    } else {
      PairedMeans(a, ps[..|ps| - 1], side);
      assert Paired(a, ps)[..|ps| - 1] == Paired(a, ps[..|ps| - 1]);
    }
  }

  lemma {:induction false} CurrencyAlone(rows: seq<Joined>, a: Account, currency: string)
    requires forall row :: row in rows ==> row.account == a
    ensures InCurrency(rows, currency) == if a.currency == currency then rows else []
  {
    if rows == [] {
    } else {
      CurrencyAlone(rows[..|rows| - 1], a, currency);
      assert rows == rows[..|rows| - 1] + [rows[|rows| - 1]];
    }
  }

  /** What one account brings to the join. */
  lemma RowsForMeans(a: Account, ps: seq<Posting>, side: Side)
    ensures RowsFor(a, ps) != []
    ensures Over(RowsFor(a, ps), side) == Part(On(ps, a.id), side)
    ensures PostingsOver(RowsFor(a, ps)) == |On(ps, a.id)|
    ensures forall row :: row in RowsFor(a, ps) ==> row.account == a
  {
    PairedMeans(a, On(ps, a.id), side);
    if On(ps, a.id) == [] { assert RowsFor(a, ps)[..0] == []; }
  }

  /** What the accounts of one currency add up to, account by account. */
  function OverAccounts(accounts: seq<Account>, ps: seq<Posting>, currency: string, side: Side): int {
    if accounts == [] then 0
    else
      var a := accounts[|accounts| - 1];
      OverAccounts(accounts[..|accounts| - 1], ps, currency, side) +
      if a.currency == currency then Part(On(ps, a.id), side) else 0
  }

  /** The sum of the balances a currency's accounts are each reported with. */
  function SumOfBalances(accounts: seq<Account>, ps: seq<Posting>, currency: string): int {
    if accounts == [] then 0
    else
      var a := accounts[|accounts| - 1];
      SumOfBalances(accounts[..|accounts| - 1], ps, currency) +
      if a.currency == currency then BalanceRow(ps, a).amount else 0
  }

  lemma {:induction false} BothSidesOfBalances(accounts: seq<Account>, ps: seq<Posting>, currency: string)
    ensures OverAccounts(accounts, ps, currency, Both) == SumOfBalances(accounts, ps, currency)
  {
    if accounts == [] {
    } else {
      BothSidesOfBalances(accounts[..|accounts| - 1], ps, currency);
      PartIsNet(On(ps, accounts[|accounts| - 1].id));
    }
  }

  lemma NothingOver(rows: seq<Joined>, side: Side)
    ensures rows == [] ==> Over(rows, side) == 0
  {
  }

  /** The joined rows of a currency are its accounts' own. */
  lemma {:induction false} JoinedByAccount(accounts: seq<Account>, ps: seq<Posting>, currency: string, side: Side)
    ensures Over(InCurrency(LeftJoin(accounts, ps), currency), side) == OverAccounts(accounts, ps, currency, side)
  {
    hide RowsFor, On, Part, Over;
    if accounts == [] {
      NothingOver([], side);
    } else {
      var a, rest := accounts[|accounts| - 1], accounts[..|accounts| - 1];
      NothingOver(InCurrency(RowsFor(a, ps), currency), side);
      JoinedByAccount(rest, ps, currency, side);
      RowsForMeans(a, ps, side);
      CurrencyAlone(RowsFor(a, ps), a, currency);
      InCurrencyConcat(LeftJoin(rest, ps), RowsFor(a, ps), currency);
      OverConcat(InCurrency(LeftJoin(rest, ps), currency), InCurrency(RowsFor(a, ps), currency), side);
    }
  }

  // ------------------------------------------ regrouped: by account, by transaction

  /** The postings of one currency. */
  function InOne(ps: seq<Posting>, currency: string, side: Side): int {
    if ps == [] then 0
    else InOne(ps[..|ps| - 1], currency, side) +
         if ps[|ps| - 1].currency == currency then Share(side, ps[|ps| - 1].amount as int) else 0
  }

  function SumOfEntries(transactions: seq<Transaction>, ps: seq<Posting>, currency: string): int {
    if transactions == [] then 0
    else
      var x := transactions[|transactions| - 1];
      SumOfEntries(transactions[..|transactions| - 1], ps, currency) +
      if x.currency == currency then Net(Of(ps, x.id)) else 0
  }

  /** One more posting moves the one account it names. */
  lemma {:induction false} OneMoreOnAccounts(accounts: seq<Account>, ps: seq<Posting>, p: Posting, currency: string,
      side: Side)
    requires DistinctAccounts(accounts)
    ensures OverAccounts(accounts, ps + [p], currency, side) == OverAccounts(accounts, ps, currency, side) +
      if NamesAccount(accounts, p.account, currency) then Share(side, p.amount as int) else 0
  {
    if accounts == [] {
    } else {
      var n := |accounts| - 1;
      var a, rest := accounts[n], accounts[..n];
      OneMoreOnAccounts(rest, ps, p, currency, side);
      assert (ps + [p])[..|ps|] == ps;
      assert accounts == rest + [a];
      assert NamesAccount(accounts, p.account, currency) <==>
        NamesAccount(rest, p.account, currency) || (a.id == p.account && a.currency == currency);
      if a.id == p.account {
        assert On(ps + [p], a.id) == On(ps, a.id) + [p];
        assert (On(ps, a.id) + [p])[..|On(ps, a.id)|] == On(ps, a.id);
      } else {
        assert On(ps, a.id) + [] == On(ps, a.id);
      }
    }
  }

  lemma {:induction false} OneMoreOnEntries(transactions: seq<Transaction>, ps: seq<Posting>, p: Posting,
      currency: string)
    requires DistinctTransactions(transactions)
    ensures SumOfEntries(transactions, ps + [p], currency) == SumOfEntries(transactions, ps, currency) +
      if NamesTransaction(transactions, p.transaction, currency) then p.amount as int else 0
  {
    if transactions == [] {
    } else {
      var n := |transactions| - 1;
      var x, rest := transactions[n], transactions[..n];
      OneMoreOnEntries(rest, ps, p, currency);
      assert (ps + [p])[..|ps|] == ps;
      assert transactions == rest + [x];
      assert NamesTransaction(transactions, p.transaction, currency) <==>
        NamesTransaction(rest, p.transaction, currency) || (x.id == p.transaction && x.currency == currency);
      if x.id == p.transaction {
        assert Of(ps + [p], x.id) == Of(ps, x.id) + [p];
        assert (Of(ps, x.id) + [p])[..|Of(ps, x.id)|] == Of(ps, x.id);
      } else {
        assert Of(ps, x.id) + [] == Of(ps, x.id);
      }
    }
  }

  /** An id is held once, so it names one currency. */
  lemma OneCurrency(t: Tables, p: Posting, currency: string)
    requires DistinctAccounts(t.accounts) && DistinctTransactions(t.transactions) && PostingHeld(t, p)
    ensures NamesAccount(t.accounts, p.account, currency) <==> p.currency == currency
    ensures NamesTransaction(t.transactions, p.transaction, currency) <==> p.currency == currency
  {
    var a :| a in t.accounts && a.id == p.account && a.currency == p.currency;
    var x :| x in t.transactions && x.id == p.transaction && x.currency == p.currency;
    forall b | b in t.accounts && b.id == p.account ensures b == a {}
    forall y | y in t.transactions && y.id == p.transaction ensures y == x {}
  }

  lemma {:induction false} NoPostings(accounts: seq<Account>, transactions: seq<Transaction>, currency: string,
      side: Side)
    ensures OverAccounts(accounts, [], currency, side) == 0 && SumOfEntries(transactions, [], currency) == 0
    decreases |accounts| + |transactions|
  {
    if accounts == [] {
    } else {
      NoPostings(accounts[..|accounts| - 1], transactions, currency, side);
    }
    if transactions == [] {
    } else {
      NoPostings(accounts, transactions[..|transactions| - 1], currency, side);
    }
  }

  /** The same postings, counted by account and counted by transaction. */
  lemma {:induction false} Regrouped(t: Tables, ps: seq<Posting>, currency: string, side: Side)
    requires DistinctAccounts(t.accounts) && DistinctTransactions(t.transactions)
    requires forall p :: p in ps ==> PostingHeld(t, p)
    ensures OverAccounts(t.accounts, ps, currency, side) == InOne(ps, currency, side)
    ensures SumOfEntries(t.transactions, ps, currency) == InOne(ps, currency, Both)
  {
    if ps == [] {
      NoPostings(t.accounts, t.transactions, currency, side);
    } else {
      var rest, p := ps[..|ps| - 1], ps[|ps| - 1];
      assert ps == rest + [p];
      Regrouped(t, rest, currency, side);
      OneMoreOnAccounts(t.accounts, rest, p, currency, side);
      OneMoreOnEntries(t.transactions, rest, p, currency);
      OneCurrency(t, p, currency);
    }
  }

  /** Each side of a currency's trial row is that side of the currency's postings. */
  lemma TrialCountsPostings(t: Tables, currency: string, side: Side)
    requires WellFormed(t)
    ensures Over(InCurrency(LeftJoin(t.accounts, t.postings), currency), side) == InOne(t.postings, currency, side)
  {
    JoinedByAccount(t.accounts, t.postings, currency, side);
    Regrouped(t, t.postings, currency, side);
  }

  function PostingsIn(ps: seq<Posting>, currency: string): seq<Posting> {
    if ps == [] then []
    else
      var last := ps[|ps| - 1];
      PostingsIn(ps[..|ps| - 1], currency) + if last.currency == currency then [last] else []
  }

  function AccountsIn(accounts: seq<Account>, currency: string): seq<Account> {
    if accounts == [] then []
    else
      var last := accounts[|accounts| - 1];
      AccountsIn(accounts[..|accounts| - 1], currency) + if last.currency == currency then [last] else []
  }

  lemma {:induction false} CountedIsCounted(rows: seq<Joined>)
    ensures Over(rows, Counted) == PostingsOver(rows)
  {
    if rows == [] {
    } else {
      CountedIsCounted(rows[..|rows| - 1]);
    }
  }

  lemma {:induction false} CountedIn(ps: seq<Posting>, currency: string)
    ensures InOne(ps, currency, Counted) == |PostingsIn(ps, currency)|
  {
    if ps == [] {
    } else {
      CountedIn(ps[..|ps| - 1], currency);
    }
  }

  lemma {:induction false} InCurrencyMembers(rows: seq<Joined>, currency: string)
    ensures forall row :: row in InCurrency(rows, currency) <==> row in rows && row.account.currency == currency
  {
    if rows == [] {
    } else {
      InCurrencyMembers(rows[..|rows| - 1], currency);
      assert rows == rows[..|rows| - 1] + [rows[|rows| - 1]];
    }
  }

  predicate HasRow(rows: seq<Joined>, a: Account) { exists row | row in rows :: row.account == a }

  lemma {:induction false} EveryAccountJoins(accounts: seq<Account>, ps: seq<Posting>)
    ensures forall a :: a in accounts <==> HasRow(LeftJoin(accounts, ps), a)
  {
    hide RowsFor;
    if accounts == [] {
    } else {
      var last, rest := accounts[|accounts| - 1], accounts[..|accounts| - 1];
      EveryAccountJoins(rest, ps);
      RowsForMeans(last, ps, Both);
      assert accounts == rest + [last];
      var above, own := LeftJoin(rest, ps), RowsFor(last, ps);
      assert own[0] in own;
      forall a ensures HasRow(above + own, a) <==> HasRow(above, a) || a == last {
        if HasRow(above, a) {
          var row :| row in above && row.account == a;
          assert row in above + own;
        }
        if a == last { assert own[0] in above + own; }
      }
    }
  }

  function IdsIn(accounts: seq<Account>, currency: string): set<nat> {
    set a | a in accounts && a.currency == currency :: a.id
  }

  lemma OneMoreId(rest: seq<Account>, last: Account, currency: string)
    ensures IdsIn(rest + [last], currency) ==
      IdsIn(rest, currency) + if last.currency == currency then {last.id} else {}
  {
    var more := IdsIn(rest + [last], currency);
    forall id | id in IdsIn(rest, currency) ensures id in more {
      var a :| a in rest && a.currency == currency && a.id == id;
      assert a in rest + [last];
    }
    assert last in rest + [last];
  }

  lemma LastIdIsNew(rest: seq<Account>, last: Account, currency: string)
    requires DistinctAccounts(rest + [last])
    ensures DistinctAccounts(rest) && last.id !in IdsIn(rest, currency)
  {
    var all := rest + [last];
    assert forall i :: 0 <= i < |rest| ==> all[i] == rest[i];
    forall a | a in rest ensures a.id != last.id {
      var i :| 0 <= i < |rest| && rest[i] == a;
      assert all[i].id != all[|rest|].id;
    }
  }

  lemma {:induction false} AccountIdsIn(accounts: seq<Account>, currency: string)
    requires DistinctAccounts(accounts)
    ensures |IdsIn(accounts, currency)| == |AccountsIn(accounts, currency)|
  {
    hide DistinctAccounts, IdsIn;
    if accounts == [] {
      NoIds(currency);
    } else {
      var last, rest := accounts[|accounts| - 1], accounts[..|accounts| - 1];
      assert accounts == rest + [last];
      LastIdIsNew(rest, last, currency);
      AccountIdsIn(rest, currency);
      OneMoreId(rest, last, currency);
    }
  }

  lemma NoIds(currency: string)
    ensures IdsIn([], currency) == {}
  {
  }

  /** The two counts of a trial row: the accounts of the currency, those nothing has been
      posted to among them, and its postings, each once. */
  lemma TrialCountsRows(t: Tables, currency: string)
    requires WellFormed(t)
    ensures var row := TrialRow(t, currency);
      row.accounts == |AccountsIn(t.accounts, currency)| && row.postings == |PostingsIn(t.postings, currency)|
  {
    hide LeftJoin, InCurrency, Over, InOne, PostingsOver, AccountsIn, PostingsIn;
    var rows := LeftJoin(t.accounts, t.postings);
    TrialCountsPostings(t, currency, Counted);
    CountedIsCounted(InCurrency(rows, currency));
    CountedIn(t.postings, currency);
    InCurrencyMembers(rows, currency);
    EveryAccountJoins(t.accounts, t.postings);
    AccountIdsIn(t.accounts, currency);
    var ids := set row | row in InCurrency(rows, currency) :: row.account.id;
    forall a | a in t.accounts && a.currency == currency ensures a.id in ids {
      assert HasRow(rows, a);
      var row :| row in rows && row.account == a;
      assert row in InCurrency(rows, currency);
    }
    forall row | row in InCurrency(rows, currency) ensures row.account in t.accounts {
      assert HasRow(rows, row.account);
    }
    assert ids == IdsIn(t.accounts, currency);
  }

  // ------------------------------------------------------- what a trial row says

  /** The positive amounts posted in a currency. */
  function DebitsIn(ps: seq<Posting>, currency: string): int {
    if ps == [] then 0
    else
      var p := ps[|ps| - 1];
      DebitsIn(ps[..|ps| - 1], currency) + if p.currency == currency && p.amount > 0 then p.amount as int else 0
  }

  /** The negative ones, as a positive number. */
  function CreditsIn(ps: seq<Posting>, currency: string): int {
    if ps == [] then 0
    else
      var p := ps[|ps| - 1];
      CreditsIn(ps[..|ps| - 1], currency) - if p.currency == currency && p.amount < 0 then p.amount as int else 0
  }

  /** What a row says of its currency is so of the postings. */
  ghost predicate Reports(t: Tables, row: Trial) {
    && row.debits == DebitsIn(t.postings, row.currency) && row.credits == CreditsIn(t.postings, row.currency)
    && row.net == row.debits - row.credits && (row.Balanced() <==> row.debits == row.credits)
    && row.accounts == |AccountsIn(t.accounts, row.currency)|
    && row.postings == |PostingsIn(t.postings, row.currency)|
  }

  lemma {:induction false} SidesIn(ps: seq<Posting>, currency: string)
    ensures InOne(ps, currency, DebitSide) == DebitsIn(ps, currency)
    ensures InOne(ps, currency, CreditSide) == CreditsIn(ps, currency)
  {
    if ps == [] {
    } else {
      SidesIn(ps[..|ps| - 1], currency);
    }
  }

  /** Whatever the book, at rest or not, a trial row reports its currency's postings. */
  lemma TrialReports(t: Tables, currency: string)
    requires WellFormed(t)
    ensures TrialRow(t, currency).currency == currency && Reports(t, TrialRow(t, currency))
  {
    hide WellFormed, LeftJoin, InCurrency, Over, InOne, PostingsOver, AccountsIn, PostingsIn;
    TrialCountsPostings(t, currency, DebitSide);
    TrialCountsPostings(t, currency, CreditSide);
    SidesIn(t.postings, currency);
    NetIsDebitsLessCredits(InCurrency(LeftJoin(t.accounts, t.postings), currency));
    TrialCountsRows(t, currency);
  }

  ghost predicate HasCurrency(accounts: seq<Account>, currency: string) {
    exists a :: a in accounts && a.currency == currency
  }

  ghost predicate IsListed(out: seq<Trial>, currency: string) {
    exists i :: 0 <= i < |out| && out[i].currency == currency
  }

  /** One row to each currency an account is held in, in order. */
  ghost predicate OneEach(accounts: seq<Account>, out: seq<Trial>) {
    && (forall i, j :: 0 <= i < j < |out| ==> Less(out[i].currency, out[j].currency))
    && (forall c :: IsListed(out, c) <==> HasCurrency(accounts, c))
  }

  lemma ListsEach(t: Tables, out: seq<Trial>)
    requires |out| == |Currencies(t)|
    requires forall i :: 0 <= i < |out| ==> out[i].currency == Sorted(Currencies(t))[i]
    ensures OneEach(t.accounts, out)
  {
    hide Less, Sorted;
    var order := Sorted(Currencies(t));
    forall c ensures IsListed(out, c) <==> HasCurrency(t.accounts, c) {
      assert c in order <==> c in Currencies(t);
      if IsListed(out, c) {
        var i :| 0 <= i < |out| && out[i].currency == c;
        assert order[i] in order;
      }
      if c in order {
        var i :| 0 <= i < |order| && order[i] == c;
        assert out[i].currency == c;
      }
    }
  }

  /** One row a currency, in currency order, including one nothing has been posted in. */
  method TrialBalance(t: Tables) returns (out: seq<Trial>)
    ensures |out| == |Currencies(t)|
    ensures forall i :: 0 <= i < |out| ==> out[i] == TrialRow(t, Sorted(Currencies(t))[i])
    ensures OneEach(t.accounts, out)
    ensures WellFormed(t) ==> forall i :: 0 <= i < |out| ==> Reports(t, out[i])
  {
    hide TrialRow, Sorted, Currencies, WellFormed, Reports, OneEach;
    var order := Sorted(Currencies(t));
    out := [];
    for i := 0 to |order|
      invariant |out| == i
      invariant forall j :: 0 <= j < i ==> out[j] == TrialRow(t, order[j]) && out[j].currency == order[j]
      invariant WellFormed(t) ==> forall j :: 0 <= j < i ==> Reports(t, out[j])
    {
      RowIsOf(t, order[i]);
      if WellFormed(t) { TrialReports(t, order[i]); }
      out := out + [TrialRow(t, order[i])];
    }
    ListsEach(t, out);
  }

  lemma RowIsOf(t: Tables, currency: string)
    ensures TrialRow(t, currency).currency == currency
  {
  }

  lemma {:induction false} BalancedEntriesSumToZero(transactions: seq<Transaction>, ps: seq<Posting>, currency: string)
    requires forall x :: x in transactions ==> Balances(ps, x.id)
    ensures SumOfEntries(transactions, ps, currency) == 0
  {
    if transactions == [] {
    } else {
      BalancedEntriesSumToZero(transactions[..|transactions| - 1], ps, currency);
    }
  }

  /** In a book at rest every currency's debits equal its credits, and the net reported
      is the sum of that currency's account balances. */
  lemma TrialIsBalanced(t: Tables, currency: string)
    requires AtRest(t)
    ensures var row := TrialRow(t, currency);
      && row.debits == row.credits
      && row.Balanced()
      && row.net == SumOfBalances(t.accounts, t.postings, currency)
  {
    NetIsDebitsLessCredits(InCurrency(LeftJoin(t.accounts, t.postings), currency));
    JoinedByAccount(t.accounts, t.postings, currency, Both);
    BothSidesOfBalances(t.accounts, t.postings, currency);
    Regrouped(t, t.postings, currency, Both);
    BalancedEntriesSumToZero(t.transactions, t.postings, currency);
  }

  // ------------------------------------------------------- three ways to a balance

  datatype Tally = Tally(amount: int, postings: nat)

  /** A running total, updated at each posting: the design the ledger does without. */
  function Running(ps: seq<Posting>): map<nat, Tally> {
    if ps == [] then map[]
    else
      var p, before := ps[|ps| - 1], Running(ps[..|ps| - 1]);
      var was := if p.account in before then before[p.account] else Tally(0, 0);
      before[p.account := Tally(was.amount + p.amount as int, was.postings + 1)]
  }

  function TallyOf(running: map<nat, Tally>, account: nat): Tally {
    if account in running then running[account] else Tally(0, 0)
  }

  lemma {:induction false} RunningIsDerived(ps: seq<Posting>, account: nat)
    ensures TallyOf(Running(ps), account) == Tally(Net(On(ps, account)), |On(ps, account)|)
  {
    if ps == [] {
    } else {
      RunningIsDerived(ps[..|ps| - 1], account);
      var before, p := On(ps[..|ps| - 1], account), ps[|ps| - 1];
      if p.account == account {
        assert (before + [p])[..|before|] == before;
      } else {
        assert before + [] == before;
      }
    }
  }

  /** The rows of the grouped left join that are one account's. */
  function ForAccount(rows: seq<Joined>, account: nat): seq<Joined> {
    if rows == [] then []
    else
      var last := rows[|rows| - 1];
      ForAccount(rows[..|rows| - 1], account) + if last.account.id == account then [last] else []
  }

  lemma {:induction false} ForAccountConcat(a: seq<Joined>, b: seq<Joined>, account: nat)
    ensures ForAccount(a + b, account) == ForAccount(a, account) + ForAccount(b, account)
    decreases |b|
  {
    if b == [] {
      assert a + b == a;
    } else {
      ForAccountConcat(a, b[..|b| - 1], account);
      assert (a + b)[..|a + b| - 1] == a + b[..|b| - 1];
    }
  }

  lemma {:induction false} ForAccountAlone(rows: seq<Joined>, a: Account, account: nat)
    requires forall row :: row in rows ==> row.account == a
    ensures ForAccount(rows, account) == if a.id == account then rows else []
  {
    if rows == [] {
    } else {
      ForAccountAlone(rows[..|rows| - 1], a, account);
      assert rows == rows[..|rows| - 1] + [rows[|rows| - 1]];
    }
  }

  predicate Holds(accounts: seq<Account>, id: nat) { exists a | a in accounts :: a.id == id }

  /** The grouped left join of an account the chart holds. */
  lemma {:induction false} GroupedIsDerived(accounts: seq<Account>, ps: seq<Posting>, account: nat)
    requires DistinctAccounts(accounts)
    ensures var rows := ForAccount(LeftJoin(accounts, ps), account);
      if Holds(accounts, account) then
        rows != [] && Over(rows, Both) == Net(On(ps, account)) && PostingsOver(rows) == |On(ps, account)|
      else rows == []
  {
    hide RowsFor, On, Net, Over, PostingsOver, ForAccount, DistinctAccounts, Holds;
    if accounts == [] {
      NoRows(account);
    } else {
      var a, rest := accounts[|accounts| - 1], accounts[..|accounts| - 1];
      assert accounts == rest + [a];
      LastIsHeldOnce(rest, a, account);
      GroupedIsDerived(rest, ps, account);
      OneAccountsRows(a, ps, account);
      ForAccountConcat(LeftJoin(rest, ps), RowsFor(a, ps), account);
      var above := ForAccount(LeftJoin(rest, ps), account);
      assert [] + RowsFor(a, ps) == RowsFor(a, ps) && above + [] == above;
    }
  }

  lemma NoRows(account: nat)
    ensures ForAccount([], account) == [] && !Holds([], account)
  {
  }

  lemma LastIsHeldOnce(rest: seq<Account>, a: Account, account: nat)
    requires DistinctAccounts(rest + [a])
    ensures DistinctAccounts(rest) && (a.id == account ==> !Holds(rest, account))
    ensures Holds(rest + [a], account) <==> Holds(rest, account) || a.id == account
  {
    var all := rest + [a];
    forall i, j | 0 <= i < j < |rest| ensures rest[i].id != rest[j].id && rest[i].code != rest[j].code {
      assert all[i] == rest[i] && all[j] == rest[j];
    }
    forall b | b in rest ensures b in all && b.id != a.id {
      var i :| 0 <= i < |rest| && rest[i] == b;
      assert all[i] == b && all[|rest|] == a;
    }
    assert a in all;
  }

  lemma OneAccountsRows(a: Account, ps: seq<Posting>, account: nat)
    ensures ForAccount(RowsFor(a, ps), account) == if a.id == account then RowsFor(a, ps) else []
    ensures RowsFor(a, ps) != []
    ensures Over(RowsFor(a, ps), Both) == Net(On(ps, a.id)) && PostingsOver(RowsFor(a, ps)) == |On(ps, a.id)|
  {
    hide RowsFor, On, Net, Over, PostingsOver, ForAccount;
    RowsForMeans(a, ps, Both);
    PartIsNet(On(ps, a.id));
    ForAccountAlone(RowsFor(a, ps), a, account);
  }

  /** What has been posted to an account, and how often. */
  function PostedTo(ps: seq<Posting>, account: nat): int {
    if ps == [] then 0
    else
      var p := ps[|ps| - 1];
      PostedTo(ps[..|ps| - 1], account) + if p.account == account then p.amount as int else 0
  }

  function TimesPostedTo(ps: seq<Posting>, account: nat): nat {
    if ps == [] then 0
    else TimesPostedTo(ps[..|ps| - 1], account) + if ps[|ps| - 1].account == account then 1 else 0
  }

  /** What the view says of an account is so of the chart and of the postings. */
  ghost predicate ReportsAccount(t: Tables, a: Account, b: Balance) {
    && b.code == a.code && b.name == a.name && b.kind == a.kind && b.currency == a.currency
    && b.amount == PostedTo(t.postings, a.id) && b.postings == TimesPostedTo(t.postings, a.id)
  }

  lemma {:induction false} PostedIsDerived(ps: seq<Posting>, account: nat)
    ensures Net(On(ps, account)) == PostedTo(ps, account) && |On(ps, account)| == TimesPostedTo(ps, account)
  {
    if ps == [] {
    } else {
      PostedIsDerived(ps[..|ps| - 1], account);
      var before, p := On(ps[..|ps| - 1], account), ps[|ps| - 1];
      if p.account == account {
        assert (before + [p])[..|before|] == before;
      } else {
        assert before + [] == before;
      }
    }
  }

  /** The balance answered for a code is the one of the account that holds it. */
  lemma BalanceIsTheAccounts(t: Tables, code: string)
    ensures BalanceOf(t, code).Some? ==>
      exists a :: a in t.accounts && a.code == code && ReportsAccount(t, a, BalanceOf(t, code).value)
  {
    if BalanceOf(t, code).Some? {
      var a := FindAccount(t.accounts, code).value;
      PostedIsDerived(t.postings, a.id);
      assert a in t.accounts && ReportsAccount(t, a, BalanceOf(t, code).value);
    }
  }

  /** The view, the grouped join and a running total answer alike, for an account with
      postings and for one without. */
  lemma BalancesAgree(t: Tables, a: Account)
    requires DistinctAccounts(t.accounts) && a in t.accounts
    ensures var view := BalanceRow(t.postings, a);
      var rows := ForAccount(LeftJoin(t.accounts, t.postings), a.id);
      && TallyOf(Running(t.postings), a.id) == Tally(view.amount, view.postings)
      && Over(rows, Both) == view.amount && PostingsOver(rows) == view.postings
      && BalanceOf(t, a.code) == Some(view)
  {
    assert Holds(t.accounts, a.id);
    hide LeftJoin, ForAccount, Running, On, Net, Over, PostingsOver, TallyOf;
    RunningIsDerived(t.postings, a.id);
    GroupedIsDerived(t.accounts, t.postings, a.id);
    assert FindAccount(t.accounts, a.code) == Some(a);
  }
}
