/** The tables of the ledger and the sums taken over them. */
module Book {
  import opened Text

  /** postings.amount_minor: a bigint. Totals are unbounded integers. */
  newtype Amount = x: int | -0x8000_0000_0000_0000 <= x < 0x8000_0000_0000_0000

  type Digest = seq<bv8>

  datatype Kind = Asset | Liability | Equity | Revenue | Expense

  datatype Account = Account(id: nat, code: string, name: string, kind: Kind, currency: string)

  datatype Transaction = Transaction(id: nat, currency: string, description: string, occurredAt: int)

  datatype Posting = Posting(id: nat, transaction: nat, account: nat, currency: string, amount: Amount)

  datatype KeyRow = KeyRow(hash: Digest, transaction: Option<nat>)

  /** Rows are kept in the order they were written. `checks` is the balance_checks table. */
  datatype Tables = Tables(
    accounts: seq<Account>,
    transactions: seq<Transaction>,
    postings: seq<Posting>,
    checks: set<nat>,
    keys: map<string, KeyRow>)

  /** A ledger nothing has been written to. */
  const EMPTY := Tables([], [], [], {}, map[])

  // -------------------------------------------------------------- lookups

  /** The account holding a code: the LEFT JOIN `Post` resolves a leg with. */
  function FindAccount(accounts: seq<Account>, code: string): (r: Option<Account>)
    ensures r.Some? ==> r.value in accounts && r.value.code == code
    ensures r.None? <==> forall a :: a in accounts ==> a.code != code
  {
    if accounts == [] then None
    else if accounts[0].code == code then Some(accounts[0])
    else FindAccount(accounts[1..], code)
  }

  function FindTransaction(transactions: seq<Transaction>, id: nat): (r: Option<Transaction>)
    ensures r.Some? ==> r.value in transactions && r.value.id == id
    ensures r.None? <==> forall t :: t in transactions ==> t.id != id
  {
    if transactions == [] then None
    else if transactions[0].id == id then Some(transactions[0])
    else FindTransaction(transactions[1..], id)
  }

  // ----------------------------------------------------------------- sums

  /** The postings of one transaction, in posting order. */
  function Of(ps: seq<Posting>, transaction: nat): seq<Posting> {
    if ps == [] then []
    else Of(ps[..|ps| - 1], transaction) +
         if ps[|ps| - 1].transaction == transaction then [ps[|ps| - 1]] else []
  }

  /** The postings on one account. */
  function On(ps: seq<Posting>, account: nat): seq<Posting> {
    if ps == [] then []
    else On(ps[..|ps| - 1], account) +
         if ps[|ps| - 1].account == account then [ps[|ps| - 1]] else []
  }

  function Net(ps: seq<Posting>): int {
    if ps == [] then 0 else Net(ps[..|ps| - 1]) + ps[|ps| - 1].amount as int
  }

  /** What assert_transaction_balances accepts: at least one leg, and a sum of zero. */
  predicate Balances(ps: seq<Posting>, transaction: nat) {
    Of(ps, transaction) != [] && Net(Of(ps, transaction)) == 0
  }

  lemma {:induction false} OfConcat(a: seq<Posting>, b: seq<Posting>, t: nat)
    ensures Of(a + b, t) == Of(a, t) + Of(b, t)
    decreases |b|
  {
    if b == [] {
      assert a + b == a;
    } else {
      OfConcat(a, b[..|b| - 1], t);
      assert (a + b)[..|a + b| - 1] == a + b[..|b| - 1];
    }
  }

  lemma {:induction false} OnConcat(a: seq<Posting>, b: seq<Posting>, n: nat)
    ensures On(a + b, n) == On(a, n) + On(b, n)
    decreases |b|
  {
    if b == [] {
      assert a + b == a;
    } else {
      OnConcat(a, b[..|b| - 1], n);
      assert (a + b)[..|a + b| - 1] == a + b[..|b| - 1];
    }
  }

  lemma {:induction false} NetConcat(a: seq<Posting>, b: seq<Posting>)
    ensures Net(a + b) == Net(a) + Net(b)
    decreases |b|
  {
    if b == [] {
      assert a + b == a;
    } else {
      NetConcat(a, b[..|b| - 1]);
      assert (a + b)[..|a + b| - 1] == a + b[..|b| - 1];
    }
  }

  lemma {:induction false} OfMembers(ps: seq<Posting>, t: nat)
    ensures forall p :: p in Of(ps, t) <==> p in ps && p.transaction == t
  {
    if ps == [] {
    } else {
      OfMembers(ps[..|ps| - 1], t);
      assert ps == ps[..|ps| - 1] + [ps[|ps| - 1]];
    }
  }

  /** A run of postings that are all one transaction's is its own selection. */
  lemma {:induction false} OfOwn(ps: seq<Posting>, t: nat)
    requires forall p :: p in ps ==> p.transaction == t
    ensures Of(ps, t) == ps
  {
    if ps == [] {
    } else {
      OfOwn(ps[..|ps| - 1], t);
      assert ps == ps[..|ps| - 1] + [ps[|ps| - 1]];
    }
  }

  lemma {:induction false} OfOthers(ps: seq<Posting>, t: nat)
    requires forall p :: p in ps ==> p.transaction != t
    ensures Of(ps, t) == []
  {
    if ps == [] {
    } else {
      OfOthers(ps[..|ps| - 1], t);
    }
  }

  /** Zero legs are refused, so a transaction that balances has two sides. */
  lemma BalancedHasTwoLegs(ps: seq<Posting>, t: nat)
    requires Balances(ps, t)
    requires forall p :: p in ps ==> p.amount != 0
    ensures |Of(ps, t)| >= 2
  {
    var legs := Of(ps, t);
    OfMembers(ps, t);
    var first := legs[0];
    assert first in legs;
    assert Net([first]) == first.amount as int;
    assert |legs| < 2 ==> legs == [first];
  }

  // ---------------------------------------------------------- well-formed

  ghost predicate DistinctAccounts(accounts: seq<Account>) {
    forall i, j :: 0 <= i < j < |accounts| ==>
      accounts[i].id != accounts[j].id && accounts[i].code != accounts[j].code
  }

  ghost predicate DistinctTransactions(transactions: seq<Transaction>) {
    forall i, j :: 0 <= i < j < |transactions| ==> transactions[i].id != transactions[j].id
  }

  /** FOREIGN KEY (transaction_id, currency) REFERENCES transactions (id, currency) */
  predicate NamesTransaction(transactions: seq<Transaction>, id: nat, currency: string) {
    exists t | t in transactions :: t.id == id && t.currency == currency
  }

  /** FOREIGN KEY (account_id, currency) REFERENCES accounts (id, currency) */
  predicate NamesAccount(accounts: seq<Account>, id: nat, currency: string) {
    exists a | a in accounts :: a.id == id && a.currency == currency
  }

  ghost predicate PostingHeld(t: Tables, p: Posting) {
    p.amount != 0 &&
    NamesTransaction(t.transactions, p.transaction, p.currency) &&
    NamesAccount(t.accounts, p.account, p.currency)
  }

  /** What the primary keys, unique columns, foreign keys and CHECKs keep between them. */
  ghost predicate WellFormed(t: Tables) {
    && DistinctAccounts(t.accounts)
    && (forall a :: a in t.accounts ==> CodeShape(a.code))
    && DistinctTransactions(t.transactions)
    && (forall i, j :: 0 <= i < j < |t.postings| ==> t.postings[i].id < t.postings[j].id)
    && (forall p :: p in t.postings ==> PostingHeld(t, p))
    && (forall k :: k in t.keys && t.keys[k].transaction.Some? ==>
         FindTransaction(t.transactions, t.keys[k].transaction.value).Some?)
  }

  /** A book at rest: every transaction balances, nothing is queued, every key is settled. */
  ghost predicate AtRest(t: Tables) {
    && WellFormed(t)
    && (forall x :: x in t.transactions ==> Balances(t.postings, x.id))
    && t.checks == {}
    && (forall k :: k in t.keys ==> t.keys[k].transaction.Some?)
  }
}
