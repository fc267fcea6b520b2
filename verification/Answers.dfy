/** What a request is answered, in the words of the request and of the book alone: which rule
    a refusal names, and what a 201 carries. */
module Answers {
  import opened Text
  import opened Book
  import opened Engine
  import opened Simple
  import opened Checks
  import Alone
  import Invariant
  import LedgerCalls
  import Reads
  import Reversal
  import Server
  import Unsettled

  // ------------------------------------------------------------ why an entry is refused

  /** A leg with money in it, on an account of the chart that holds the currency. */
  ghost predicate IsHeld(accounts: seq<Account>, leg: Leg, currency: string) {
    leg.amount != 0 && exists a :: a in accounts && a.code == leg.account && a.currency == currency
  }

  /** The row's columns fit, and so do the legs before the i-th. */
  ghost predicate Reaches(accounts: seq<Account>, e: Entry, i: nat) {
    && AllFit(TransactionColumns(e.currency, e.description)) && i <= |e.legs|
    && forall j :: 0 <= j < i ==> IsHeld(accounts, e.legs[j], e.currency)
  }

  ghost predicate HasCode(accounts: seq<Account>, code: string) { exists a :: a in accounts && a.code == code }

  ghost predicate HoldsOther(accounts: seq<Account>, leg: Leg, currency: string, other: string) {
    other != currency && exists a :: a in accounts && a.code == leg.account && a.currency == other
  }

  predicate IsOfALeg(why: Refusal) { why.UnknownAccount? || why.LegRejected? || why.CurrencyMismatch? }

  /** The first rule a leg breaks: an account nobody holds, then a zero, then the currency. */
  ghost predicate Breaks(accounts: seq<Account>, leg: Leg, currency: string, why: Refusal)
    requires IsOfALeg(why)
  {
    match why
    case UnknownAccount(_) => !HasCode(accounts, leg.account)
    case LegRejected(_) => HasCode(accounts, leg.account) && leg.amount == 0
    case CurrencyMismatch(_, holds) =>
      leg.amount != 0 && holds.Some? && HoldsOther(accounts, leg, currency, holds.value)
  }

  /** The first rule an entry breaks over a book that balances, and what is said of it. */
  ghost predicate Explains(accounts: seq<Account>, e: Entry, why: Refusal) {
    if IsOfALeg(why) then
      why.leg < |e.legs| && Reaches(accounts, e, why.leg) && Breaks(accounts, e.legs[why.leg], e.currency, why)
    else
      match why
      case Rejected(column) => FirstUnfit(column, TransactionColumns(e.currency, e.description))
      case Unbalanced(net, n) =>
        Reaches(accounts, e, |e.legs|) && net == Sum(e.legs) && n == |e.legs| && (n == 0 || net != 0)
      case _ => false
  }

  lemma BreaksExactly(accounts: seq<Account>, leg: Leg, currency: string, i: nat, why: Refusal)
    requires DistinctAccounts(accounts)
    ensures LegFault(accounts, currency, leg, i) == Some(why) <==>
      IsOfALeg(why) && why.leg == i && Breaks(accounts, leg, currency, why)
    ensures LegFault(accounts, currency, leg, i).None? <==> IsHeld(accounts, leg, currency)
  {
    var found := FindAccount(accounts, leg.account);
    forall a | a in accounts && a.code == leg.account ensures found == Some(a) {}
  }

  lemma ColumnIsOne(column: string, other: string, columns: Columns)
    requires FirstUnfit(column, columns) && FirstUnfit(other, columns)
    ensures column == other && !AllFit(columns)
  {
    var i: nat :| UnfitAt(column, columns, i);
    var j: nat :| UnfitAt(other, columns, j);
    assert !columns[i].1 && !columns[j].1;
  }

  lemma ColumnsDecide(check: Option<string>, columns: Columns)
    requires Names(check, columns)
    ensures AllFit(columns) <==> check.None?
    ensures forall column :: FirstUnfit(column, columns) <==> check == Some(column)
  {
    hide AllFit, FirstUnfit;
    forall column | FirstUnfit(column, columns) ensures check == Some(column) {
      ColumnIsOne(column, column, columns);
      ColumnIsOne(column, check.value, columns);
    }
  }

  /** `Post`'s verdict over a book that balances is the first rule broken, and none exactly
      where there is none. */
  lemma VerdictExplains(t: Tables, e: Entry, why: Refusal)
    requires DistinctAccounts(t.accounts) && BookBalances(t)
    ensures PostVerdict(t, e) == Some(why) <==> Explains(t.accounts, e, why)
  {
    hide AllFit, FirstUnfit, TransactionColumns, TransactionCheck, BookBalances, DistinctAccounts, LegFault, IsHeld,
         Breaks, Sum;
    TransactionChecked(e.currency, e.description);
    ColumnsDecide(TransactionCheck(e.currency, e.description), TransactionColumns(e.currency, e.description));
    forall i | 0 <= i < |e.legs|
      ensures LegFault(t.accounts, e.currency, e.legs[i], i) == Some(why) <==>
        IsOfALeg(why) && why.leg == i && Breaks(t.accounts, e.legs[i], e.currency, why)
      ensures LegFault(t.accounts, e.currency, e.legs[i], i).None? <==> IsHeld(t.accounts, e.legs[i], e.currency)
    {
      BreaksExactly(t.accounts, e.legs[i], e.currency, i, why);
    }
    var fault := FirstFault(t.accounts, e, 0);
    if IsOfALeg(why) && why.leg < |e.legs| {
      assert Breaks(t.accounts, e.legs[why.leg], e.currency, why) ==>
        LegFault(t.accounts, e.currency, e.legs[why.leg], why.leg).Some?;
    }
  }

  /** An entry that breaks no rule, in the same words. */
  ghost predicate BreaksNothing(accounts: seq<Account>, e: Entry) {
    Reaches(accounts, e, |e.legs|) && e.legs != [] && Sum(e.legs) == 0
  }

  /** Over a book that balances every entry is taken, or refused for one rule and no other. */
  lemma OneVerdict(t: Tables, e: Entry)
    requires DistinctAccounts(t.accounts) && BookBalances(t)
    ensures PostVerdict(t, e).None? <==> BreaksNothing(t.accounts, e)
    ensures PostVerdict(t, e).Some? <==> exists why :: Explains(t.accounts, e, why)
    ensures forall why, other :: Explains(t.accounts, e, why) && Explains(t.accounts, e, other) ==> why == other
  {
    hide AllFit, FirstUnfit, TransactionColumns, TransactionCheck, BookBalances, DistinctAccounts, LegFault, IsHeld,
         Explains, PostVerdict, Sum;
    forall why ensures PostVerdict(t, e) == Some(why) <==> Explains(t.accounts, e, why) { VerdictExplains(t, e, why); }
    if PostVerdict(t, e).Some? { assert Explains(t.accounts, e, PostVerdict(t, e).value); }
    NothingBroken(t, e);
  }

  lemma NothingBroken(t: Tables, e: Entry)
    requires DistinctAccounts(t.accounts) && BookBalances(t)
    ensures PostVerdict(t, e).None? <==> BreaksNothing(t.accounts, e)
  {
    hide AllFit, FirstUnfit, TransactionColumns, TransactionCheck, BookBalances, DistinctAccounts, LegFault, IsHeld,
         Sum;
    TransactionChecked(e.currency, e.description);
    ColumnsDecide(TransactionCheck(e.currency, e.description), TransactionColumns(e.currency, e.description));
    forall i | 0 <= i < |e.legs|
      ensures LegFault(t.accounts, e.currency, e.legs[i], i).None? <==> IsHeld(t.accounts, e.legs[i], e.currency)
    {
      BreaksExactly(t.accounts, e.legs[i], e.currency, i, Rejected(""));
    }
  }

  // --------------------------------------------------------- what a write is answered

  /** The i-th call is the last of them to post. */
  ghost predicate LastPosts(calls: seq<Call>, i: nat) {
    i < |calls| && calls[i].PostCall? && forall k :: i < k < |calls| ==> calls[k].OpenCall?
  }

  lemma OneMoreCall(b: Ledger, calls: seq<Call>, now: int)
    requires calls != []
    ensures var front, last := calls[..|calls| - 1], calls[|calls| - 1];
      RunCalls(b, calls, now).1 ==
        if last.PostCall? then Some(Simple.Post(RunCalls(b, front, now).0, last.entry, now).1)
        else RunCalls(b, front, now).1
  {
    hide Simple.Post, Simple.Open;
  }

  lemma NoCalls(b: Ledger, now: int)
    ensures RunCalls(b, [], now) == (b, None)
  {
  }

  /** The reply a write callback is left with is that of its last `Post`, made of the ledger
      as the calls before it left it, and none where it made none. */
  lemma {:induction false} LastReplyIs(b: Ledger, calls: seq<Call>, now: int)
    ensures (forall k :: 0 <= k < |calls| ==> calls[k].OpenCall?) ==> RunCalls(b, calls, now).1 == None
    ensures forall i: nat :: LastPosts(calls, i) ==>
      RunCalls(b, calls, now).1 == Some(Simple.Post(RunCalls(b, calls[..i], now).0, calls[i].entry, now).1)
  {
    hide Simple.Post, RunCalls;
    if calls == [] {
      NoCalls(b, now);
    } else {
      var n := |calls| - 1;
      LastReplyIs(b, calls[..n], now);
      OneMoreCall(b, calls, now);
      forall i: nat | LastPosts(calls, i)
        ensures RunCalls(b, calls, now).1 == Some(Simple.Post(RunCalls(b, calls[..i], now).0, calls[i].entry, now).1)
      {
        if i < n {
          assert LastPosts(calls[..n], i) && calls[..n][..i] == calls[..i];
        }
      }
    }
  }

  /** A write that gives up, or whose last `Post` was refused, is refused with that reply;
      one that names a transaction, its own or another, is recorded under the key when the
      transaction is there and every other key is settled. */
  lemma WriteIsAnswered(b: Ledger, c: Claim, w: Write, now: int)
    requires Unsettled.IsFree(b.tables, c)
    ensures var r := Simple.Once(b, c, w, now).1;
      var (worked, last) := RunCalls(LedgerCalls.Reserved(b, c), w.calls, now);
      && (w.answer.GiveUp? || (w.answer.LastPost? && (last.None? || last.value.Refused?)) ==>
            r == Turned(WriteFailed(last)) && Simple.Once(b, c, w, now).0.tables == b.tables)
      && (forall id :: w.answer == Named(id) || (w.answer.LastPost? && last == Some(Posted(id))) ==>
            if FindTransaction(worked.tables.transactions, id).None? then r == Turned(NotRecorded)
            else if KeysSettled(b.tables) then r == Recorded(Record(c.key, id, false))
            else r == Turned(OthersUnsettled))
  {
    hide KeyCheck, KeysSettled, RunCalls, FindTransaction;
  }

  /** A claim of a free key over a book that balances: an entry that breaks a rule is refused
      for that rule, and for no other reason. */
  lemma ClaimSaysWhy(b: Ledger, c: Claim, e: Entry, now: int, why: Refusal)
    requires Unsettled.IsFree(b.tables, c) && DistinctAccounts(b.tables.accounts) && BookBalances(b.tables)
    ensures Simple.Once(b, c, Server.TheWrite(e), now).1 == Turned(WriteFailed(Some(Refused(why)))) <==>
      Explains(b.tables.accounts, e, why)
  {
    hide BookBalances, Explains, Simple.Once, RunCalls, KeysSettled, FindTransaction, PostVerdict, Unsettled.IsFree;
    var reserved := LedgerCalls.Reserved(b, c);
    Server.OneCall(reserved, e, now);
    Server.KeyAside(b.tables, c.key, KeyRow(c.hash, None));
    Unsettled.PostAnswers(reserved, e, now);
    VerdictExplains(reserved.tables, e, why);
    WriteIsAnswered(b, c, Server.TheWrite(e), now);
  }

  // ------------------------------------------------------------- a posted request

  /** A 201's body carries the id and the entry's own words and legs. */
  predicate Carries(body: Server.Body, id: nat, e: Entry) {
    body.id == id && body.currency == e.currency && body.description == e.description && body.legs == e.legs
  }

  /** What one post is answered by a book at rest whose next id is `next`. */
  ghost predicate AnswersPost(t: Tables, next: nat, q: Server.PostRequest, r: Server.Answer) {
    var columns := KeyColumns(q.key, q.hash);
    if q.key == "" then r.NoKey?
    else if |q.entry.legs| > 1000 then r == Server.TooManyPostings(|q.entry.legs|)
    else if !AllFit(columns) then r.Refused? && r.why.BadKey? && FirstUnfit(r.why.column, columns)
    else if q.key in t.keys then
      if t.keys[q.key].hash != q.hash then r == Server.Answer.Refused(KeyReused)
      else if !q.fate.Acknowledged? then r.NoAnswer?
      else
        && r.Created? && r.replayed && t.keys[q.key].transaction == Some(r.body.id)
        && Reads.EntryHeld(t, r.body.id).Some?
        && Carries(r.body, r.body.id, Reads.EntryHeld(t, r.body.id).value)
    else if !BreaksNothing(t.accounts, q.entry) then
      exists why :: Explains(t.accounts, q.entry, why) && r == Server.Answer.Refused(WriteFailed(Some(Refused(why))))
    else if !q.fate.Acknowledged? then r.NoAnswer?
    else r.Created? && !r.replayed && Carries(r.body, next, q.entry)
  }

  /** Every post is answered so: the first thing wrong with it is what the refusal names, and
      a 201 carries the entry under the key, this request's or the first's. */
  lemma PostIsAnswered(b: Ledger, q: Server.PostRequest)
    requires AtRest(b.tables) && Invariant.Drawable(b.tables, b.supply)
    ensures AnswersPost(b.tables, b.supply.transaction, q, Server.ServedPost(b, q).1)
  {
    hide AtRest, Invariant.Drawable, Server.ServedPost, KeyCheck, AllFit, FirstUnfit, KeyColumns, BreaksNothing,
         Explains, Reads.EntryHeld;
    KeyChecked(q.key, q.hash);
    ColumnsDecide(KeyCheck(q.key, q.hash), KeyColumns(q.key, q.hash));
    if q.key == "" || |q.entry.legs| > Server.MAX_POSTINGS {
      UnsentIsAnswered(b, q);
    } else if KeyCheck(q.key, q.hash).Some? {
      MalformedIsAnswered(b, q);
    } else if q.key in b.tables.keys {
      HeldIsAnswered(b, q);
    } else {
      FreshIsAnswered(b, q);
    }
  }

  lemma UnsentIsAnswered(b: Ledger, q: Server.PostRequest)
    requires q.key == "" || |q.entry.legs| > Server.MAX_POSTINGS
    ensures Server.ServedPost(b, q).1 ==
      if q.key == "" then Server.NoKey else Server.TooManyPostings(|q.entry.legs|)
  {
  }

  lemma MalformedIsAnswered(b: Ledger, q: Server.PostRequest)
    requires Alone.IsSent(q) && KeyCheck(q.key, q.hash).Some?
    ensures Server.ServedPost(b, q).1 == Server.Answer.Refused(BadKey(KeyCheck(q.key, q.hash).value))
  {
    hide RunCalls, KeyCheck;
  }

  lemma HeldIsAnswered(b: Ledger, q: Server.PostRequest)
    requires AtRest(b.tables) && Alone.IsSent(q) && KeyCheck(q.key, q.hash).None? && q.key in b.tables.keys
    ensures var row, r := b.tables.keys[q.key], Server.ServedPost(b, q).1;
      if row.hash != q.hash then r == Server.Answer.Refused(KeyReused)
      else if !q.fate.Acknowledged? then r.NoAnswer?
      else
        && r.Created? && r.replayed && row.transaction == Some(r.body.id)
        && Reads.EntryHeld(b.tables, r.body.id).Some?
        && Carries(r.body, r.body.id, Reads.EntryHeld(b.tables, r.body.id).value)
  {
    hide WellFormed, KeyCheck, RunCalls, KeysSettled, Reads.EntryHeld;
    Alone.ResultIsHeld(b.tables, q.key);
  }

  lemma FreshIsAnswered(b: Ledger, q: Server.PostRequest)
    requires AtRest(b.tables) && Alone.IsFresh(b, q)
    ensures var r := Server.ServedPost(b, q).1;
      if !BreaksNothing(b.tables.accounts, q.entry) then
        exists why ::
          Explains(b.tables.accounts, q.entry, why) && r == Server.Answer.Refused(WriteFailed(Some(Refused(why))))
      else if !q.fate.Acknowledged? then r.NoAnswer?
      else r.Created? && !r.replayed && Carries(r.body, b.supply.transaction, q.entry)
  {
    hide AtRest, BreaksNothing, Explains, Simple.Once, Server.ServedPost, KeyCheck, BookBalances, PostVerdict,
         DistinctAccounts;
    RestGives(b.tables);
    Alone.FreshServed(b, q);
    Server.KeyAside(b.tables, q.key, KeyRow(q.hash, None));
    OneVerdict(Alone.Reserved(b, q).tables, q.entry);
    if !BreaksNothing(b.tables.accounts, q.entry) {
      var why :| Explains(b.tables.accounts, q.entry, why);
      ClaimSaysWhy(b, Claim(q.key, q.hash), q.entry, q.now, why);
      TurnedIsRefused(b, q);
    }
  }

  lemma RestGives(t: Tables)
    requires AtRest(t)
    ensures DistinctAccounts(t.accounts) && BookBalances(t)
  {
  }

  /** What `Once` refuses, the endpoint answers with. */
  lemma TurnedIsRefused(b: Ledger, q: Server.PostRequest)
    requires Alone.IsSent(q)
    ensures var r := Simple.Once(b, Claim(q.key, q.hash), Server.TheWrite(q.entry), q.now).1;
      r.Turned? ==> Server.ServedPost(b, q).1 == Server.Answer.Refused(r.why)
  {
    hide Simple.Once, Reads.EntryHeld;
  }

  // ------------------------------------------------------------- an account opened

  ghost predicate IsKind(kind: string, k: Kind) {
    match k
    case Asset => kind == "asset"
    case Liability => kind == "liability"
    case Equity => kind == "equity"
    case Revenue => kind == "revenue"
    case Expense => kind == "expense"
  }

  lemma KindIsSpelled(kind: string, k: Kind)
    ensures KindOf(kind) == Some(k) <==> IsKind(kind, k)
  {
  }

  /** What opening an account is answered, and by which rule it is refused. */
  ghost predicate AnswersOpen(t: Tables, a: AccountRequest, fate: Server.Fate, r: Server.Answer) {
    var columns := AccountColumns(a.code, a.name, a.currency);
    if !exists k :: IsKind(a.kind, k) then
      r == Server.Answer.NotOpened(UnknownKind([Asset, Liability, Equity, Revenue, Expense]))
    else if !AllFit(columns) then
      r.NotOpened? && r.refusal.AccountRejected? && FirstUnfit(r.refusal.column, columns)
    else if HasCode(t.accounts, a.code) then
      && r.NotOpened? && r.refusal.AccountExists? && r.refusal.holder.Some?
      && r.refusal.holder.value in t.accounts && r.refusal.holder.value.code == a.code
    else if !fate.Acknowledged? then r.NoAnswer?
    else
      && r.Opened? && r.balance.code == a.code && r.balance.name == a.name && r.balance.currency == a.currency
      && IsKind(a.kind, r.balance.kind) && r.balance.amount == 0 && r.balance.postings == 0
  }

  lemma OpenIsAnswered(b: Ledger, a: AccountRequest, fate: Server.Fate)
    requires WellFormed(b.tables) && Invariant.Drawable(b.tables, b.supply)
    ensures AnswersOpen(b.tables, a, fate, Server.ServedOpen(b, a, fate).1)
  {
    hide WellFormed, Invariant.Drawable, AccountCheck, KindOf, AllFit, FirstUnfit, AccountColumns, IsKind,
         Server.ServedOpen;
    AccountChecked(a.code, a.name, a.currency);
    ColumnsDecide(AccountCheck(a.code, a.name, a.currency), AccountColumns(a.code, a.name, a.currency));
    forall k ensures KindOf(a.kind) == Some(k) <==> IsKind(a.kind, k) { KindIsSpelled(a.kind, k); }
    if KindOf(a.kind).Some? { assert IsKind(a.kind, KindOf(a.kind).value); }
    Server.OpenedIsEmpty(b, a, fate);
    Alone.OpenServed(b, a, fate);
    Alone.CodesAre(b.tables, a.code);
    OpenRefused(b, a, fate);
  }

  lemma OpenRefused(b: Ledger, a: AccountRequest, fate: Server.Fate)
    ensures OpenVerdict(b.tables, a).Some? ==>
      Server.ServedOpen(b, a, fate).1 == Server.Answer.NotOpened(OpenVerdict(b.tables, a).value)
  {
  }
}
