/** What one Postgres transaction is to the others: the entries it created, the legs it
    added and the entries it still owes a check. Every statement the engine takes is a step
    of the interleaved sessions, followed by checks that pass. */
module SessionWork {
  import opened Text
  import opened Book
  import opened Engine
  import opened Invariant
  import I = Isolation

  type Work = I.Work

  // --------------------------------------------------------------- abstraction

  function LegsOf(ps: seq<Posting>): seq<I.Leg> {
    if ps == [] then []
    else LegsOf(ps[..|ps| - 1]) + [I.Leg(ps[|ps| - 1].transaction, ps[|ps| - 1].amount as int)]
  }

  function IdsOf(transactions: seq<Transaction>): set<nat> { set x | x in transactions :: x.id }

  /** The entries some queued balance event names. */
  function Owed(pending: seq<Event>): set<nat> { set e | e in pending && !e.KeyWritten? :: e.id }

  ghost predicate Begun(base: Tables, t: Tables) {
    base.transactions <= t.transactions && base.postings <= t.postings
  }

  /** What a transaction that began on `base` has done. */
  ghost function WorkOf(base: Tables, st: State): Work
    requires Begun(base, st.tables)
  {
    I.Work(IdsOf(st.tables.transactions[|base.transactions|..]), LegsOf(st.tables.postings[|base.postings|..]),
           Owed(st.pending))
  }

  // ------------------------------------------------------------------- one check

  lemma {:induction false} OfLegs(ps: seq<Posting>, id: nat)
    ensures I.NetOf(LegsOf(ps), id) == Net(Of(ps, id)) && I.CountOf(LegsOf(ps), id) == |Of(ps, id)|
  {
    if ps == [] {
    } else {
      var rest, last := ps[..|ps| - 1], ps[|ps| - 1];
      OfLegs(rest, id);
      var legs := LegsOf(ps);
      assert legs[..|legs| - 1] == LegsOf(rest);
      if last.transaction == id {
        assert (Of(rest, id) + [last])[..|Of(rest, id)|] == Of(rest, id);
      } else {
        assert Of(rest, id) + [] == Of(rest, id);
      }
    }
  }

  /** The sum the trigger takes is over the session's own legs and those it began on: what
      a check asks in the interleaved sessions, with `base` for its snapshot. */
  lemma CheckIsOverBoth(base: Tables, st: State, id: nat)
    requires Begun(base, st.tables)
    ensures var legs := WorkOf(base, st).legs;
      Balances(st.tables.postings, id) <==>
        I.CountOf(legs, id) + |Of(base.postings, id)| > 0 && I.NetOf(legs, id) + Net(Of(base.postings, id)) == 0
  {
    var own := st.tables.postings[|base.postings|..];
    assert st.tables.postings == base.postings + own;
    OfConcat(base.postings, own, id);
    NetConcat(Of(base.postings, id), Of(own, id));
    OfLegs(own, id);
  }

  // ---------------------------------------------------------- statements are steps

  /** Checks that passed, and nothing else. */
  ghost predicate Checked(before: Work, after: Work, t: Tables) {
    && after.created == before.created && after.legs == before.legs && after.owed <= before.owed
    && forall id :: id in before.owed - after.owed ==> Balances(t.postings, id)
  }

  /** At most one row written, as Isolation writes it. */
  ghost predicate Wrote(before: Work, q: Stmt, id: nat, after: Work) {
    match q
    case InsertTransaction(_, _, _) =>
      after == before.(created := before.created + {id}, owed := before.owed + {id})
    case InsertPosting(transaction, _, amount) =>
      amount != 0 && after ==
        before.(legs := before.legs + [I.Leg(transaction, amount as int)], owed := before.owed + {transaction})
    case _ => after == before
  }

  lemma SettleChecks(base: Tables, st: State)
    requires Begun(base, st.tables) && Settle(st).Ok?
    ensures Begun(base, Settle(st).state.tables)
    ensures Checked(WorkOf(base, st), WorkOf(base, Settle(st).state), Settle(st).state.tables)
  {
    hide IdsOf, LegsOf;
    FireMeans(st.tables, st.pending, st.immediate);
    KeptMembers(st.pending, st.immediate);
    var after := Settle(st).state;
    forall id | id in Owed(st.pending) - Owed(after.pending) ensures Balances(after.tables.postings, id) {
      var e :| e in st.pending && !e.KeyWritten? && e.id == id;
      assert e !in after.pending;
      assert Passes(st.tables, e);
    }
  }

  lemma TransactionIsCreate(base: Tables, st: State, row: Transaction)
    requires Begun(base, st.tables)
    ensures Begun(base, WithTransaction(st, row).tables)
    ensures var was, now := WorkOf(base, st), WorkOf(base, WithTransaction(st, row));
      now == was.(created := was.created + {row.id}, owed := was.owed + {row.id})
  {
    hide LegsOf;
    var next := WithTransaction(st, row);
    var own, more := st.tables.transactions[|base.transactions|..], next.tables.transactions[|base.transactions|..];
    assert more == own + [row];
    assert IdsOf(more) == IdsOf(own) + {row.id} by { OneMoreId(own, row); }
    OneMoreOwed(st.pending, TransactionWritten(row.id));
  }

  lemma OneMoreId(xs: seq<Transaction>, row: Transaction)
    ensures IdsOf(xs + [row]) == IdsOf(xs) + {row.id}
  {
    assert row in xs + [row];
    forall id | id in IdsOf(xs) ensures id in IdsOf(xs + [row]) {
      var x :| x in xs && x.id == id;
      assert x in xs + [row];
    }
  }

  lemma OneMoreOwed(pending: seq<Event>, e: Event)
    requires !e.KeyWritten?
    ensures Owed(pending + [e]) == Owed(pending) + {e.id}
  {
    assert e in pending + [e];
    forall id | id in Owed(pending) ensures id in Owed(pending + [e]) {
      var x :| x in pending && !x.KeyWritten? && x.id == id;
      assert x in pending + [e];
    }
  }

  lemma PostingIsAppend(base: Tables, st: State, row: Posting)
    requires Begun(base, st.tables) && RowPerCheck(st.tables, st.pending)
    ensures Begun(base, WithPosting(st, row).tables)
    ensures var was, now := WorkOf(base, st), WorkOf(base, WithPosting(st, row));
      now == was.(legs := was.legs + [I.Leg(row.transaction, row.amount as int)], owed := was.owed + {row.transaction})
  {
    hide IdsOf;
    var next := WithPosting(st, row);
    var own, more := st.tables.postings[|base.postings|..], next.tables.postings[|base.postings|..];
    assert more == own + [row] && more[..|own|] == own;
    if row.transaction in st.tables.checks {
      assert CheckQueued(row.transaction) in st.pending;
      assert Owed(st.pending) + {row.transaction} == Owed(st.pending);
    } else {
      OneMoreOwed(st.pending, CheckQueued(row.transaction));
    }
  }

  lemma KeyOwesNothing(base: Tables, st: State, key: string, row: KeyRow)
    requires Begun(base, st.tables)
    ensures Begun(base, WriteKey(st, key, row).tables) && WorkOf(base, WriteKey(st, key, row)) == WorkOf(base, st)
  {
    hide IdsOf, LegsOf;
    var more := st.pending + [KeyWritten(key)];
    forall id ensures id in Owed(more) <==> id in Owed(st.pending) {
      if id in Owed(st.pending) {
        var e :| e in st.pending && !e.KeyWritten? && e.id == id;
        assert e in more;
      }
    }
  }

  /** Every statement the engine takes, other than a savepoint's, is what Isolation does for
      it, and then checks that pass: what a session owes is exactly what it has queued. */
  lemma ExecIsAStep(base: Tables, s: Session, q: Stmt) returns (written: Work)
    requires Valid(s) && !s.aborted && Begun(base, s.state.tables)
    requires !(q.Savepoint? || q.RollbackTo? || q.Release?) && ExecOutcome(s, q).Ok?
    ensures var st := ExecOutcome(s, q).state;
      && Begun(base, st.tables)
      && Wrote(WorkOf(base, s.state), q, s.supply.transaction, written)
      && Checked(written, WorkOf(base, st), st.tables)
  {
    hide WorkOf, Checked, Settle, WellFormed, Drawable, Accounted, PendingNamed, KeysAccounted;
    var st := s.state;
    written := WorkOf(base, st);
    match q
    case SetConstraints(names, immediately) =>
      SameWork(base, st, st.(immediate := st.immediate + names));
      SameWork(base, st, st.(immediate := st.immediate - names));
      if immediately {
        SettleChecks(base, st.(immediate := st.immediate + names));
      } else {
        NoneChecked(written, st.tables);
      }
    case InsertAccount(code, name, kind, currency) =>
      var row := Account(s.supply.account, code, name, KindOf(kind).value, currency);
      var next := st.(tables := st.tables.(accounts := st.tables.accounts + [row]));
      SameWork(base, st, next);
      SettleChecks(base, next);
    case InsertTransaction(currency, description, occurredAt) =>
      var row := Transaction(s.supply.transaction, currency, description,
                             if occurredAt.Some? then occurredAt.value else s.now);
      TransactionIsCreate(base, st, row);
      written := WorkOf(base, WithTransaction(st, row));
      SettleChecks(base, WithTransaction(st, row));
    case InsertPosting(transaction, code, amount) =>
      var account := FindAccount(st.tables.accounts, code).value;
      var row := Posting(s.supply.posting, transaction, account.id, account.currency, amount);
      PostingIsAppend(base, st, row);
      written := WorkOf(base, WithPosting(st, row));
      SettleChecks(base, WithPosting(st, row));
    case MutatePosting(_) => SettleChecks(base, st);
    case MutateTransaction(_) => SettleChecks(base, st);
    case InsertKey(key, hash) =>
      KeyOwesNothing(base, st, key, KeyRow(hash, None));
      SettleChecks(base, WriteKey(st, key, KeyRow(hash, None)));
    case RecordResult(key, id) =>
      if key in st.tables.keys && st.tables.keys[key].transaction.None? {
        KeyOwesNothing(base, st, key, KeyRow(st.tables.keys[key].hash, Some(id)));
        SettleChecks(base, WriteKey(st, key, KeyRow(st.tables.keys[key].hash, Some(id))));
      } else {
        SettleChecks(base, st);
      }
    case UpdateKey(key, hash, result) =>
      if key in st.tables.keys {
        KeyOwesNothing(base, st, key, KeyRow(hash, result));
        SettleChecks(base, WriteKey(st, key, KeyRow(hash, result)));
      } else {
        SettleChecks(base, st);
      }
  }

  predicate IsKnown(t: Tables, id: nat) { FindTransaction(t.transactions, id).Some? }

  /** An entry is written to, and checked, only where the session can see its row: its own or
      one it began on. */
  lemma WrittenIsKnown(s: Session, q: Stmt)
    requires Valid(s) && !s.aborted && !(q.Savepoint? || q.RollbackTo? || q.Release?) && ExecOutcome(s, q).Ok?
    ensures var t := ExecOutcome(s, q).state.tables;
      && (forall id :: id in Owed(s.state.pending) ==> IsKnown(t, id))
      && (q.InsertTransaction? ==> IsKnown(t, s.supply.transaction))
      && (q.InsertPosting? ==> IsKnown(s.state.tables, q.transaction) && IsKnown(t, q.transaction))
  {
    hide WellFormed, Drawable, Accounted, RowPerCheck, KeysAccounted, Settle, NothingImmediate;
    var t := s.state.tables;
    assert PendingNamed(t, s.state.pending);
    OutcomeExtendsRows(s, q);
    var later := ExecOutcome(s, q).state.tables;
    forall id | id in Owed(s.state.pending) ensures IsKnown(later, id) {
      var e :| e in s.state.pending && !e.KeyWritten? && e.id == id;
      assert e == TransactionWritten(id) || e == CheckQueued(id);
      assert FindTransaction(t.transactions, id).value in later.transactions;
    }
    if q.InsertPosting? {
      var account := FindAccount(t.accounts, q.code).value;
      var x :| x in t.transactions && x.id == q.transaction && x.currency == account.currency;
      assert x in later.transactions;
    }
  }

  lemma OutcomeExtendsRows(s: Session, q: Stmt)
    requires !(q.Savepoint? || q.RollbackTo? || q.Release?) && ExecOutcome(s, q).Ok?
    ensures s.state.tables.transactions <= ExecOutcome(s, q).state.tables.transactions
    ensures q.InsertTransaction? ==> IsKnown(ExecOutcome(s, q).state.tables, s.supply.transaction)
  {
    var t := s.state.tables;
    OutcomeExtends(t, s, q);
    if q.InsertTransaction? {
      var row := Transaction(s.supply.transaction, q.currency, q.description,
        if q.occurredAt.Some? then q.occurredAt.value else s.now);
      var next := WithTransaction(s.state, row);
      FireMeans(next.tables, next.pending, next.immediate);
      assert row in next.tables.transactions;
    }
  }

  lemma SameWork(base: Tables, st: State, next: State)
    requires Begun(base, st.tables) && next.tables.transactions == st.tables.transactions
    requires next.tables.postings == st.tables.postings && next.pending == st.pending
    ensures Begun(base, next.tables) && WorkOf(base, next) == WorkOf(base, st)
  {
  }

  lemma NoneChecked(work: Work, t: Tables)
    ensures Checked(work, work, t)
  {
  }

  lemma NothingOwed()
    ensures Owed([]) == {}
  {
  }

  /** A commit that is taken checks everything still owed, and owes nothing after it. */
  lemma CommitOwesNothing(base: Tables, s: Session)
    requires Valid(s) && Begun(base, s.state.tables) && Commit(s).Ok?
    ensures Begun(base, Commit(s).state.tables)
    ensures WorkOf(base, Commit(s).state).owed == {}
    ensures Checked(WorkOf(base, s.state), WorkOf(base, Commit(s).state), Commit(s).state.tables)
  {
    hide IdsOf, LegsOf, WellFormed, Balances;
    CommitMeans(s);
    ValidGives(s);
    NothingOwed();
    forall id | id in Owed(s.state.pending) ensures Balances(s.state.tables.postings, id) {
      var e :| e in s.state.pending && !e.KeyWritten? && e.id == id;
      assert e == TransactionWritten(id) || e == CheckQueued(id);
      assert FindTransaction(s.state.tables.transactions, id).value in s.state.tables.transactions;
    }
  }
}
