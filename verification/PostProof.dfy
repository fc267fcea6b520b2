/** The statements `Post` sends, one by one: what the transaction holds after each. */
module PostProof {
  import opened Book
  import opened Engine
  import opened Invariant
  import opened Simple

  lemma {:induction false} KeptAll(pending: seq<Event>, immediate: set<Constraint>)
    requires forall e :: e in pending ==> ConstraintOf(e) !in immediate
    ensures Kept(pending, immediate) == pending
    ensures Answered(pending, immediate) == {}
  {
    if pending == [] {
    } else {
      KeptAll(pending[1..], immediate);
      assert pending == [pending[0]] + pending[1..];
    }
  }

  /** A statement that queues nothing immediate fires nothing. */
  lemma QuietSettle(st: State)
    requires NothingImmediate(st)
    ensures Settle(st) == Ok(st)
  {
    FireMeans(st.tables, st.pending, st.immediate);
    KeptAll(st.pending, st.immediate);
    assert AllPass(st.tables, st.pending, st.immediate);
    assert st.tables.checks - {} == st.tables.checks;
  }

  lemma {:induction false} KeptConcat(a: seq<Event>, b: seq<Event>, immediate: set<Constraint>)
    ensures Kept(a + b, immediate) == Kept(a, immediate) + Kept(b, immediate)
  {
    hide ConstraintOf;
    if a == [] {
      assert a + b == b;
    } else {
      KeptConcat(a[1..], b, immediate);
      assert (a + b)[0] == a[0] && (a + b)[1..] == a[1..] + b;
      var own := if ConstraintOf(a[0]) in immediate then [] else [a[0]];
      assert (own + Kept(a[1..], immediate)) + Kept(b, immediate) ==
        own + (Kept(a[1..], immediate) + Kept(b, immediate));
    }
  }

  lemma {:induction false} KeptWidened(pending: seq<Event>, immediate: set<Constraint>, more: set<Constraint>)
    requires forall e :: e in pending ==> ConstraintOf(e) !in immediate
    ensures Kept(pending, immediate + more) == Kept(pending, more)
  {
    if pending == [] {
    } else {
      KeptWidened(pending[1..], immediate, more);
    }
  }

  // ------------------------------------------------ the entry, leg by leg

  /** The transaction once the first `n` legs are in: one check queued for the row, and
      one for all the legs. */
  ghost function Partial(st: State, e: Entry, id: nat, first: nat, now: int, n: nat): State
    requires n <= |e.legs| && Resolved(st.tables.accounts, e.legs[..n])
  {
    State(st.tables.(
            transactions := st.tables.transactions + [Header(e, id, now)],
            postings := st.tables.postings + LegRows(st.tables.accounts, id, first, e.legs[..n]),
            checks := st.tables.checks + if n == 0 then {} else {id}),
          st.pending + [TransactionWritten(id)] + (if n == 0 then [] else [CheckQueued(id)]),
          st.immediate - BALANCE_CONSTRAINTS)
  }

  lemma HeaderWritten(s: Session, e: Entry)
    requires Valid(s) && TransactionCheck(e.currency, e.description).None?
    ensures ExecTransaction(s.state.(immediate := s.state.immediate - BALANCE_CONSTRAINTS), s.supply.transaction, s.now,
                            InsertTransaction(e.currency, e.description, e.occurredAt))
         == Ok(Partial(s.state, e, s.supply.transaction, s.supply.posting, s.now, 0))
  {
    var st := s.state;
    var written := Partial(st, e, s.supply.transaction, s.supply.posting, s.now, 0);
    assert st.tables.postings + [] == st.tables.postings;
    assert st.tables.checks + {} == st.tables.checks;
    var row := Header(e, s.supply.transaction, s.now);
    assert written.pending == st.pending + [TransactionWritten(row.id)];
    assert written == WithTransaction(st.(immediate := st.immediate - BALANCE_CONSTRAINTS), row);
    assert NothingImmediate(written);
    QuietSettle(written);
  }

  /** The error each refused leg raises. */
  function LegError(why: Refusal): SqlError {
    match why
    case UnknownAccount(_) => NotNull("account_id")
    case LegRejected(_) => CheckFailed("amount_minor")
    case _ => ForeignKey("transaction_id_currency")
  }

  lemma LegRowsSnoc(accounts: seq<Account>, id: nat, first: nat, legs: seq<Leg>, n: nat)
    requires n < |legs| && Resolved(accounts, legs[..n + 1])
    ensures Resolved(accounts, legs[..n])
    ensures LegRows(accounts, id, first, legs[..n + 1])
         == LegRows(accounts, id, first, legs[..n]) + [LegRow(accounts, id, first + n, legs[n])]
  {
    assert legs[..n + 1][..n] == legs[..n];
  }

  lemma LegNamesTransaction(t: Tables, e: Entry, id: nat, now: int, currency: string)
    requires forall x :: x in t.transactions ==> x.id != id
    ensures NamesTransaction(t.transactions + [Header(e, id, now)], id, currency) <==> currency == e.currency
  {
    assert Header(e, id, now) in t.transactions + [Header(e, id, now)];
  }

  lemma FreshIsUnchecked(s: Session)
    requires Valid(s)
    ensures s.supply.transaction !in s.state.tables.checks
  {
    forall id | id in s.state.tables.checks ensures id < s.supply.transaction {
      assert FindTransaction(s.state.tables.transactions, id).Some?;
    }
  }

  lemma LegQueued(st: State, e: Entry, id: nat, first: nat, now: int, n: nat)
    requires n < |e.legs| && Resolved(st.tables.accounts, e.legs[..n + 1]) && id !in st.tables.checks
    ensures Resolved(st.tables.accounts, e.legs[..n])
    ensures WithPosting(Partial(st, e, id, first, now, n), LegRow(st.tables.accounts, id, first + n, e.legs[n]))
         == Partial(st, e, id, first, now, n + 1)
  {
    LegRowsSnoc(st.tables.accounts, id, first, e.legs, n);
    var row := LegRow(st.tables.accounts, id, first + n, e.legs[n]);
    var now1, next := Partial(st, e, id, first, now, n), Partial(st, e, id, first, now, n + 1);
    assert next.tables.postings == now1.tables.postings + [row];
    if n == 0 {
      assert now1.tables.checks == st.tables.checks;
      assert now1.pending == st.pending + [TransactionWritten(id)];
    }
  }

  /** One leg: taken exactly when it breaks no rule, and the check is queued with the first. */
  lemma LegWritten(s: Session, e: Entry, n: nat)
    requires Valid(s) && n < |e.legs| && Resolved(s.state.tables.accounts, e.legs[..n])
    ensures
      var fault := LegFault(s.state.tables.accounts, e.currency, e.legs[n], n);
      var r := ExecPosting(Partial(s.state, e, s.supply.transaction, s.supply.posting, s.now, n), s.supply.posting + n,
                           InsertPosting(s.supply.transaction, e.legs[n].account, e.legs[n].amount));
      if fault.Some? then r == Err(LegError(fault.value))
      else Resolved(s.state.tables.accounts, e.legs[..n + 1]) &&
           r == Ok(Partial(s.state, e, s.supply.transaction, s.supply.posting, s.now, n + 1))
  {
    hide Valid;
    ValidGives(s);
    FreshIsUnchecked(s);
    var st, id, first := s.state, s.supply.transaction, s.supply.posting;
    var account := FindAccount(st.tables.accounts, e.legs[n].account);
    if account.Some? {
      LegNamesTransaction(st.tables, e, id, s.now, account.value.currency);
      if LegFault(st.tables.accounts, e.currency, e.legs[n], n).None? {
        assert Resolved(st.tables.accounts, e.legs[..n + 1]);
        LegQueued(st, e, id, first, s.now, n);
        var next := Partial(st, e, id, first, s.now, n + 1);
        assert NothingImmediate(next);
        QuietSettle(next);
      }
    }
  }

  // ----------------------------------------------------- asking for the sum

  lemma {:induction false} LegRowsNet(accounts: seq<Account>, id: nat, first: nat, legs: seq<Leg>)
    requires Resolved(accounts, legs)
    ensures Net(LegRows(accounts, id, first, legs)) == Sum(legs)
  {
    if legs == [] {
    } else {
      var n := |legs| - 1;
      assert Resolved(accounts, legs[..n]);
      LegRowsNet(accounts, id, first, legs[..n]);
      var rows := LegRows(accounts, id, first, legs);
      assert rows == LegRows(accounts, id, first, legs[..n]) + [LegRow(accounts, id, first + n, legs[n])];
      assert rows[..n] == LegRows(accounts, id, first, legs[..n]);
    }
  }

  /** The legs of a fresh transaction are exactly the entry's. */
  lemma EnteredLegs(t: Tables, e: Entry, id: nat, first: nat, x: nat)
    requires WellFormed(t) && Resolved(t.accounts, e.legs)
    requires forall y :: y in t.transactions ==> y.id != id
    ensures Of(t.postings + LegRows(t.accounts, id, first, e.legs), x)
         == if x == id then LegRows(t.accounts, id, first, e.legs) else Of(t.postings, x)
  {
    var rows := LegRows(t.accounts, id, first, e.legs);
    OfConcat(t.postings, rows, x);
    if x == id {
      forall p | p in t.postings ensures p.transaction != id { assert PostingHeld(t, p); }
      OfOthers(t.postings, id);
      OfOwn(rows, id);
      assert [] + rows == rows;
    } else {
      OfOthers(rows, x);
      assert Of(t.postings, x) + [] == Of(t.postings, x);
    }
  }

  lemma EnteredBalances(t: Tables, e: Entry, id: nat, first: nat, now: int)
    requires WellFormed(t) && Resolved(t.accounts, e.legs)
    requires forall y :: y in t.transactions ==> y.id != id
    ensures BookBalances(Enter(t, e, id, first, now)) <==> BookBalances(t) && e.legs != [] && Sum(e.legs) == 0
  {
    var after := Enter(t, e, id, first, now);
    LegRowsNet(t.accounts, id, first, e.legs);
    forall x: nat ensures Balances(after.postings, x)
                  == if x == id then e.legs != [] && Sum(e.legs) == 0 else Balances(t.postings, x)
    {
      EnteredLegs(t, e, id, first, x);
    }
    assert Header(e, id, now) in after.transactions;
    assert forall x :: x in t.transactions ==> x in after.transactions;
  }

  /** The checks a transaction owes pass exactly when its whole book balances. */
  lemma OwedChecks(t: Tables, pending: seq<Event>, immediate: set<Constraint>)
    requires Accounted(t, pending) && PendingNamed(t, pending) && BALANCE_CONSTRAINTS <= immediate
    requires forall e :: e in pending && e.KeyWritten? ==> ConstraintOf(e) !in immediate
    ensures AllPass(t, pending, immediate) <==> BookBalances(t)
  {
    if BookBalances(t) {
      forall e | e in pending && ConstraintOf(e) in immediate ensures Passes(t, e) {
        assert FindTransaction(t.transactions, e.id).value in t.transactions;
      }
    }
    if AllPass(t, pending, immediate) {
      forall x | x in t.transactions ensures Balances(t.postings, x.id) {
        assert TransactionWritten(x.id) in pending ==> Passes(t, TransactionWritten(x.id));
        assert CheckQueued(x.id) in pending ==> Passes(t, CheckQueued(x.id));
      }
    }
  }

  /** Firing leaves no check row, and no balance check, queued. */
  lemma NothingOwed(pending: seq<Event>, id: nat, some: bool, before: set<Constraint>)
    requires forall e :: e in pending ==> ConstraintOf(e) !in before
    ensures
      var mine := [TransactionWritten(id)] + (if some then [CheckQueued(id)] else []);
      Kept(pending + mine, before + BALANCE_CONSTRAINTS) == Kept(pending, BALANCE_CONSTRAINTS)
  {
    var mine := [TransactionWritten(id)] + (if some then [CheckQueued(id)] else []);
    KeptConcat(pending, mine, before + BALANCE_CONSTRAINTS);
    KeptWidened(pending, before, BALANCE_CONSTRAINTS);
    assert mine[1..] == if some then [CheckQueued(id)] else [];
    assert Kept(mine[1..], before + BALANCE_CONSTRAINTS) == [];
    assert Kept(pending, BALANCE_CONSTRAINTS) + [] == Kept(pending, BALANCE_CONSTRAINTS);
  }

  lemma RowsAnswered(st: State, immediate: set<Constraint>)
    requires RowPerCheck(st.tables, st.pending) && BalanceChecksMustBalance in immediate
    ensures st.tables.checks - Answered(st.pending, immediate) == {}
  {
    forall x | x in st.tables.checks ensures x in Answered(st.pending, immediate) {
      assert CheckQueued(x) in st.pending && ConstraintOf(CheckQueued(x)) in immediate;
    }
  }

  lemma EntryFired(st: State, e: Entry, id: nat, first: nat, now: int, full: State)
    requires Resolved(st.tables.accounts, e.legs) && Resolved(st.tables.accounts, e.legs[..|e.legs|])
    requires full == Partial(st, e, id, first, now, |e.legs|)
    requires RowPerCheck(full.tables, full.pending) && NothingImmediate(st)
    requires AllPass(full.tables, full.pending, st.immediate + BALANCE_CONSTRAINTS)
    ensures ExecConstraints(full, BALANCE_CONSTRAINTS, true)
         == Ok(State(Enter(st.tables, e, id, first, now), Kept(st.pending, BALANCE_CONSTRAINTS),
                     st.immediate + BALANCE_CONSTRAINTS))
  {
    var immediate := st.immediate + BALANCE_CONSTRAINTS;
    assert (st.immediate - BALANCE_CONSTRAINTS) + BALANCE_CONSTRAINTS == immediate;
    assert e.legs[..|e.legs|] == e.legs;
    assert full.pending == st.pending +
      ([TransactionWritten(id)] + (if e.legs != [] then [CheckQueued(id)] else []));
    FireMeans(full.tables, full.pending, immediate);
    NothingOwed(st.pending, id, e.legs != [], st.immediate);
    RowsAnswered(full, immediate);
  }

  lemma EntryPasses(st: State, e: Entry, id: nat, first: nat, now: int, full: State)
    requires WellFormed(st.tables) && NothingImmediate(st)
    requires forall x :: x in st.tables.transactions ==> x.id != id
    requires Resolved(st.tables.accounts, e.legs) && Resolved(st.tables.accounts, e.legs[..|e.legs|])
    requires full == Partial(st, e, id, first, now, |e.legs|)
    requires Accounted(full.tables, full.pending) && PendingNamed(full.tables, full.pending)
    ensures AllPass(full.tables, full.pending, st.immediate + BALANCE_CONSTRAINTS)
      <==> BookBalances(st.tables) && e.legs != [] && Sum(e.legs) == 0
  {
    assert e.legs[..|e.legs|] == e.legs;
    assert forall x :: x in full.pending && x.KeyWritten? ==> x in st.pending;
    OwedChecks(full.tables, full.pending, st.immediate + BALANCE_CONSTRAINTS);
    EnteredBalances(st.tables, e, id, first, now);
    var entered := Enter(st.tables, e, id, first, now);
    assert full.tables.transactions == entered.transactions && full.tables.postings == entered.postings;
  }

  lemma EntryRefused(st: State, e: Entry, id: nat, first: nat, now: int, full: State)
    requires Resolved(st.tables.accounts, e.legs[..|e.legs|])
    requires full == Partial(st, e, id, first, now, |e.legs|) && NothingImmediate(st)
    requires !AllPass(full.tables, full.pending, st.immediate + BALANCE_CONSTRAINTS)
    ensures ExecConstraints(full, BALANCE_CONSTRAINTS, true) == Err(DoesNotBalance)
  {
    var immediate := st.immediate + BALANCE_CONSTRAINTS;
    assert full.immediate + BALANCE_CONSTRAINTS == immediate;
    FireMeans(full.tables, full.pending, immediate);
    assert forall e :: e in full.pending && e.KeyWritten? ==> e in st.pending;
  }
}
