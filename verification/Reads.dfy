/** Reading an entry back: `EntryOf`, and that what was posted is what is read, after
    any later writes. */
module Reads {
  import opened Text
  import opened Book
  import opened Invariant
  import opened Simple
  import opened LedgerCalls
  import opened Calls
  import PostProof

  function AccountAt(accounts: seq<Account>, id: nat): (r: Option<Account>)
    ensures r.Some? ==> r.value in accounts && r.value.id == id
    ensures r.None? <==> forall a :: a in accounts ==> a.id != id
  {
    if accounts == [] then None
    else if accounts[0].id == id then Some(accounts[0])
    else AccountAt(accounts[1..], id)
  }

  /** JOIN accounts a ON a.id = p.account_id, in posting order. */
  function LegsHeld(accounts: seq<Account>, ps: seq<Posting>): seq<Leg> {
    if ps == [] then []
    else
      var account := AccountAt(accounts, ps[|ps| - 1].account);
      LegsHeld(accounts, ps[..|ps| - 1]) +
      if account.Some? then [Leg(account.value.code, ps[|ps| - 1].amount)] else []
  }

  /** The entry a transaction holds. */
  function EntryHeld(t: Tables, id: nat): Option<Entry> {
    var row := FindTransaction(t.transactions, id);
    if row.None? then None
    else Some(Entry(row.value.currency, row.value.description,
                    LegsHeld(t.accounts, Of(t.postings, id)), Some(row.value.occurredAt)))
  }

  method EntryOf(t: Tables, id: nat) returns (r: Option<Entry>)
    ensures r == EntryHeld(t, id)
  {
    var row := FindTransaction(t.transactions, id);
    if row.None? {
      return None;
    }
    var rows := Of(t.postings, id);
    var legs: seq<Leg> := [];
    for i := 0 to |rows|
      invariant legs == LegsHeld(t.accounts, rows[..i])
    {
      assert rows[..i + 1][..i] == rows[..i];
      var account := AccountAt(t.accounts, rows[i].account);
      if account.Some? {
        legs := legs + [Leg(account.value.code, rows[i].amount)];
      }
    }
    assert rows[..|rows|] == rows;
    r := Some(Entry(row.value.currency, row.value.description, legs, Some(row.value.occurredAt)));
  }

  // ------------------------------------------------------------ round trip

  lemma {:induction false} PrefixFinds(a: seq<Transaction>, b: seq<Transaction>, id: nat)
    requires a <= b && FindTransaction(a, id).Some?
    ensures FindTransaction(b, id) == FindTransaction(a, id)
  {
    if a == [] || a[0].id == id {
    } else {
      PrefixFinds(a[1..], b[1..], id);
    }
  }

  lemma {:induction false} PrefixAccount(a: seq<Account>, b: seq<Account>, id: nat)
    requires a <= b && AccountAt(a, id).Some?
    ensures AccountAt(b, id) == AccountAt(a, id)
  {
    if a == [] || a[0].id == id {
    } else {
      PrefixAccount(a[1..], b[1..], id);
    }
  }

  lemma SameAccount(accounts: seq<Account>, code: string)
    requires DistinctAccounts(accounts) && FindAccount(accounts, code).Some?
    ensures AccountAt(accounts, FindAccount(accounts, code).value.id) == FindAccount(accounts, code)
  {
  }

  /** The rows written for the legs read back as the legs, in the order they were sent. */
  lemma {:induction false} LegRowsReadBack(accounts: seq<Account>, later: seq<Account>, id: nat, first: nat,
      legs: seq<Leg>)
    requires DistinctAccounts(accounts) && accounts <= later && Resolved(accounts, legs)
    ensures LegsHeld(later, LegRows(accounts, id, first, legs)) == legs
  {
    if legs == [] {
    } else {
      var n := |legs| - 1;
      assert Resolved(accounts, legs[..n]);
      LegRowsReadBack(accounts, later, id, first, legs[..n]);
      SameAccount(accounts, legs[n].account);
      PrefixAccount(accounts, later, FindAccount(accounts, legs[n].account).value.id);
      var rows := LegRows(accounts, id, first, legs);
      assert rows[..n] == LegRows(accounts, id, first, legs[..n]);
      assert legs == legs[..n] + [Leg(legs[n].account, legs[n].amount)];
    }
  }

  /** The legs of a transaction already written: no later call adds to them. */
  ghost predicate LegsStand(b: Ledger, id: nat, legs: seq<Posting>) {
    Of(b.tables.postings, id) == legs && id < b.supply.transaction
  }

  lemma PostLeavesLegs(b: Ledger, e: Entry, now: int, id: nat)
    requires id < b.supply.transaction
    ensures LegsStand(Simple.Post(b, e, now).0, id, Of(b.tables.postings, id))
  {
    if PostVerdict(b.tables, e).None? {
      Verdict(b.tables, e);
      var rows := LegRows(b.tables.accounts, b.supply.transaction, b.supply.posting, e.legs);
      OfConcat(b.tables.postings, rows, id);
      OfOthers(rows, id);
      assert Of(b.tables.postings, id) + [] == Of(b.tables.postings, id);
    }
  }

  lemma {:induction false} CallsLeaveLegs(b: Ledger, calls: seq<Call>, now: int, id: nat)
    requires id < b.supply.transaction
    ensures LegsStand(RunCalls(b, calls, now).0, id, Of(b.tables.postings, id))
  {
    if calls == [] {
    } else {
      var before := RunCalls(b, calls[..|calls| - 1], now).0;
      CallsLeaveLegs(b, calls[..|calls| - 1], now, id);
      match calls[|calls| - 1]
      case OpenCall(_) =>
      case PostCall(e) => PostLeavesLegs(before, e, now, id);
    }
  }

  lemma {:induction false} RunLeavesLegs(b: Ledger, qs: seq<Request>, now: int, id: nat)
    requires id < b.supply.transaction
    ensures LegsStand(TakeAll(b, qs, now).0, id, Of(b.tables.postings, id))
  {
    if qs == [] {
    } else {
      var before := TakeAll(b, qs[..|qs| - 1], now).0;
      RunLeavesLegs(b, qs[..|qs| - 1], now, id);
      match qs[|qs| - 1]
      case Opens(_) =>
      case Posts(e) => PostLeavesLegs(before, e, now, id);
      case Claims(c, w) =>
        CallsLeaveLegs(before.(tables := WithKey(before.tables, c.key, KeyRow(c.hash, None))), w.calls, now, id);
    }
  }

  /** An accepted entry reads back as it was sent, legs in order, then and after any
      later calls; only the moment may have been filled in. */
  lemma PostReadsBack(b: Ledger, e: Entry, now: int, later: seq<Request>)
    requires WellFormed(b.tables) && Drawable(b.tables, b.supply)
    ensures var (after, r) := Simple.Post(b, e, now);
      r.Posted? ==>
        EntryHeld(TakeAll(after, later, now).0.tables, r.id) ==
          Some(e.(occurredAt := Some(if e.occurredAt.Some? then e.occurredAt.value else now)))
  {
    hide Extends, TakeAll;
    var (after, r) := Simple.Post(b, e, now);
    if r.Posted? {
      var t, last := b.tables, TakeAll(after, later, now).0.tables;
      Verdict(t, e);
      TakeAllExtends(after, later, now);
      RunLeavesLegs(after, later, now, r.id);
      var rows := LegRows(t.accounts, r.id, b.supply.posting, e.legs);
      EnteredAlone(t, e, r.id, b.supply.posting);
      HeaderStays(t, last, e, r.id, now, after.tables);
      LegRowsReadBack(t.accounts, last.accounts, r.id, b.supply.posting, e.legs);
    }
  }

  lemma EnteredAlone(t: Tables, e: Entry, id: nat, first: nat)
    requires WellFormed(t) && Resolved(t.accounts, e.legs)
    requires forall x :: x in t.transactions ==> x.id < id
    ensures Of(t.postings + LegRows(t.accounts, id, first, e.legs), id) == LegRows(t.accounts, id, first, e.legs)
  {
    PostProof.EnteredLegs(t, e, id, first, id);
  }

  lemma HeaderStays(t: Tables, last: Tables, e: Entry, id: nat, now: int, entered: Tables)
    requires forall x :: x in t.transactions ==> x.id < id
    requires entered.transactions == t.transactions + [Header(e, id, now)] && entered.accounts == t.accounts
    requires Extends(entered, last)
    ensures FindTransaction(last.transactions, id) == Some(Header(e, id, now)) && t.accounts <= last.accounts
  {
    assert Header(e, id, now) in entered.transactions;
    assert FindTransaction(entered.transactions, id).Some?;
    PrefixFinds(entered.transactions, last.transactions, id);
  }
}
