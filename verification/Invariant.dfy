/** What every statement of a transaction keeps, over any run of them, and what that
    makes of a commit. */
module Invariant {
  import opened Text
  import opened Book
  import opened Engine

  // ---------------------------------------------- firing the queued events

  /** The events that stay queued. */
  function Kept(pending: seq<Event>, immediate: set<Constraint>): seq<Event> {
    if pending == [] then []
    else (if ConstraintOf(pending[0]) in immediate then [] else [pending[0]]) + Kept(pending[1..], immediate)
  }

  /** The balance_checks rows the firing deletes. */
  function Answered(pending: seq<Event>, immediate: set<Constraint>): set<nat> {
    set e | e in pending && e.CheckQueued? && ConstraintOf(e) in immediate :: e.id
  }

  ghost predicate AllPass(t: Tables, pending: seq<Event>, immediate: set<Constraint>) {
    forall e :: e in pending && ConstraintOf(e) in immediate ==> Passes(t, e)
  }

  lemma {:induction false} FireMeans(t: Tables, pending: seq<Event>, immediate: set<Constraint>)
    ensures Fire(t, pending, immediate).Ok? <==> AllPass(t, pending, immediate)
    ensures AllPass(t, pending, immediate) ==>
      Fire(t, pending, immediate).state ==
        State(t.(checks := t.checks - Answered(pending, immediate)), Kept(pending, immediate), immediate)
    ensures Fire(t, pending, immediate).Err? ==>
      exists e :: e in pending && ConstraintOf(e) in immediate && !Passes(t, e)
                  && Fire(t, pending, immediate).error == RaisedBy(e)
    decreases |pending|
  {
    if pending == [] {
      assert t.checks - Answered(pending, immediate) == t.checks;
    } else {
      var e, rest := pending[0], pending[1..];
      assert pending == [e] + rest;
      assert AllPass(t, pending, immediate) <==>
        (ConstraintOf(e) in immediate ==> Passes(t, e)) && AllPass(t, rest, immediate);
      FireMeans(t, rest, immediate);
      FireMeans(Fired(t, e), rest, immediate);
      assert forall x :: Passes(Fired(t, e), x) == Passes(t, x);
      assert AllPass(Fired(t, e), rest, immediate) == AllPass(t, rest, immediate);
      assert Answered(pending, immediate) ==
        (if e.CheckQueued? && ConstraintOf(e) in immediate then {e.id} else {}) + Answered(rest, immediate);
      assert Fired(t, e).checks - Answered(rest, immediate) ==
        t.checks - (if e.CheckQueued? then {e.id} else {}) - Answered(rest, immediate);
      assert t.checks - (if e.CheckQueued? then {e.id} else {}) - Answered(rest, immediate) ==
        t.checks - ((if e.CheckQueued? then {e.id} else {}) + Answered(rest, immediate));
    }
  }

  /** The first event asked that finds something to raise. */
  function FirstFailing(t: Tables, pending: seq<Event>, immediate: set<Constraint>): (r: Option<Event>)
    ensures r.Some? ==> r.value in pending && ConstraintOf(r.value) in immediate && !Passes(t, r.value)
    ensures r.None? <==> AllPass(t, pending, immediate)
  {
    if pending == [] then None
    else if ConstraintOf(pending[0]) in immediate && !Passes(t, pending[0]) then Some(pending[0])
    else
      var r := FirstFailing(t, pending[1..], immediate);
      assert pending == [pending[0]] + pending[1..];
      r
  }

  /** It is the one whose error a firing raises. */
  lemma {:induction false} FireRaisesFirst(t: Tables, pending: seq<Event>, immediate: set<Constraint>)
    ensures Fire(t, pending, immediate).Err? <==> FirstFailing(t, pending, immediate).Some?
    ensures Fire(t, pending, immediate).Err? ==>
      Fire(t, pending, immediate).error == RaisedBy(FirstFailing(t, pending, immediate).value)
    decreases |pending|
  {
    if pending == [] {
    } else {
      FireRaisesFirst(t, pending[1..], immediate);
      FireRaisesFirst(Fired(t, pending[0]), pending[1..], immediate);
      FailsAlike(t, Fired(t, pending[0]), pending[1..], immediate);
    }
  }

  /** The check rows have no say in what fails. */
  lemma {:induction false} FailsAlike(t: Tables, u: Tables, pending: seq<Event>, immediate: set<Constraint>)
    requires t.postings == u.postings && t.keys == u.keys
    ensures FirstFailing(t, pending, immediate) == FirstFailing(u, pending, immediate)
  {
    if pending == [] {
    } else {
      FailsAlike(t, u, pending[1..], immediate);
    }
  }

  /** Of two runs of events, the second is asked only where the first passes. */
  lemma {:induction false} FailsInOrder(t: Tables, a: seq<Event>, b: seq<Event>, immediate: set<Constraint>)
    ensures FirstFailing(t, a + b, immediate) ==
      if FirstFailing(t, a, immediate).Some? then FirstFailing(t, a, immediate) else FirstFailing(t, b, immediate)
  {
    if a == [] {
      assert a + b == b;
    } else {
      FailsInOrder(t, a[1..], b, immediate);
      assert (a + b)[0] == a[0] && (a + b)[1..] == a[1..] + b;
    }
  }

  lemma {:induction false} KeptMembers(pending: seq<Event>, immediate: set<Constraint>)
    ensures forall e :: e in Kept(pending, immediate) <==> e in pending && ConstraintOf(e) !in immediate
  {
    if pending == [] {
    } else {
      KeptMembers(pending[1..], immediate);
      assert pending == [pending[0]] + pending[1..];
    }
  }

  lemma {:induction false} AllFired(pending: seq<Event>)
    ensures Kept(pending, ALL_CONSTRAINTS) == []
  {
    if pending == [] {
    } else {
      AllFired(pending[1..]);
    }
  }

  /** A balance check is queued at most once per transaction. */
  ghost predicate QueuedOnce(pending: seq<Event>) {
    forall i, j :: 0 <= i < j < |pending| && pending[i].CheckQueued? ==> pending[i] != pending[j]
  }

  lemma {:induction false} KeptQueuedOnce(pending: seq<Event>, immediate: set<Constraint>)
    requires QueuedOnce(pending)
    ensures QueuedOnce(Kept(pending, immediate))
  {
    if pending == [] {
    } else {
      var rest := pending[1..];
      assert QueuedOnce(rest) by {
        forall i, j | 0 <= i < j < |rest| && rest[i].CheckQueued? ensures rest[i] != rest[j] {
          assert pending[i + 1] != pending[j + 1];
        }
      }
      KeptQueuedOnce(rest, immediate);
      KeptMembers(rest, immediate);
      assert forall e :: e in rest && pending[0].CheckQueued? ==> e != pending[0];
    }
  }

  // ------------------------------------------------------- the invariant

  ghost predicate Drawable(t: Tables, supply: Supply) {
    && (forall a :: a in t.accounts ==> a.id < supply.account)
    && (forall x :: x in t.transactions ==> x.id < supply.transaction)
    && (forall p :: p in t.postings ==> p.id < supply.posting)
  }

  /** A transaction row is either still to be checked or balances already. */
  ghost predicate Accounted(t: Tables, pending: seq<Event>) {
    forall x :: x in t.transactions ==>
      Balances(t.postings, x.id) || TransactionWritten(x.id) in pending || CheckQueued(x.id) in pending
  }

  /** A balance_checks row exists exactly when its one deferred firing is queued. */
  ghost predicate RowPerCheck(t: Tables, pending: seq<Event>) {
    && (forall id :: id in t.checks <==> CheckQueued(id) in pending)
    && QueuedOnce(pending)
  }

  /** Queued firings name rows that are there. */
  ghost predicate PendingNamed(t: Tables, pending: seq<Event>) {
    && (forall id :: TransactionWritten(id) in pending || CheckQueued(id) in pending ==>
         FindTransaction(t.transactions, id).Some?)
    && (forall k :: KeyWritten(k) in pending ==> k in t.keys)
  }

  ghost predicate KeysAccounted(t: Tables, pending: seq<Event>) {
    forall k :: k in t.keys && t.keys[k].transaction.None? ==> KeyWritten(k) in pending
  }

  ghost predicate Sound(st: State, supply: Supply) {
    && WellFormed(st.tables)
    && Drawable(st.tables, supply)
    && Accounted(st.tables, st.pending)
    && RowPerCheck(st.tables, st.pending)
    && PendingNamed(st.tables, st.pending)
    && KeysAccounted(st.tables, st.pending)
  }

  /** Between statements nothing immediate is left waiting. */
  ghost predicate NothingImmediate(st: State) {
    forall e :: e in st.pending ==> ConstraintOf(e) !in st.immediate
  }

  ghost predicate Valid(s: Session) {
    && Sound(s.state, s.supply) && NothingImmediate(s.state)
    && forall v :: v in s.saves ==> Sound(v.state, s.supply) && NothingImmediate(v.state)
  }

  lemma ValidGives(s: Session)
    requires Valid(s)
    ensures WellFormed(s.state.tables) && NothingImmediate(s.state)
    ensures Accounted(s.state.tables, s.state.pending) && PendingNamed(s.state.tables, s.state.pending)
    ensures RowPerCheck(s.state.tables, s.state.pending)
    ensures forall x :: x in s.state.tables.transactions ==> x.id != s.supply.transaction
  {
  }

  lemma BeginIsValid(t: Tables, supply: Supply, now: int)
    requires AtRest(t) && Drawable(t, supply)
    ensures Valid(Begin(t, supply, now))
  {
  }

  lemma SettleKeeps(st: State, supply: Supply)
    requires Sound(st, supply)
    ensures Settle(st).Ok? ==> Sound(Settle(st).state, supply) && NothingImmediate(Settle(st).state)
  {
    FireMeans(st.tables, st.pending, st.immediate);
    if Settle(st).Err? { return; }
    KeptMembers(st.pending, st.immediate);
    KeptQueuedOnce(st.pending, st.immediate);
    var after := Settle(st).state;
    forall x | x in after.tables.transactions
      ensures Balances(after.tables.postings, x.id)
           || TransactionWritten(x.id) in after.pending || CheckQueued(x.id) in after.pending
    {
      if TransactionWritten(x.id) in st.pending && TransactionsMustBalance in st.immediate {
        assert Passes(st.tables, TransactionWritten(x.id));
      } else if CheckQueued(x.id) in st.pending && BalanceChecksMustBalance in st.immediate {
        assert Passes(st.tables, CheckQueued(x.id));
      }
    }
    forall k | k in after.tables.keys && after.tables.keys[k].transaction.None?
      ensures KeyWritten(k) in after.pending
    {
      assert KeyWritten(k) in st.pending && !Passes(st.tables, KeyWritten(k));
    }
    forall id ensures id in after.tables.checks <==> CheckQueued(id) in after.pending {
      assert CheckQueued(id) in st.pending && ConstraintOf(CheckQueued(id)) in st.immediate <==>
        id in Answered(st.pending, st.immediate);
    }
  }

  // ------------------------------------------------- every statement keeps it

  lemma AccountKeeps(st: State, supply: Supply, q: Stmt)
    requires q.InsertAccount? && Sound(st, supply) && NothingImmediate(st)
    ensures var r := ExecAccount(st, supply.account, q);
      r.Ok? ==> Sound(r.state, Drawn(supply, q)) && NothingImmediate(r.state)
  {
    var t := st.tables;
    if KindOf(q.kind).Some? && AccountCheck(q.code, q.name, q.currency).None? && FindAccount(t.accounts, q.code).None? {
      var row := Account(supply.account, q.code, q.name, KindOf(q.kind).value, q.currency);
      var added := t.(accounts := t.accounts + [row]);
      forall p | p in added.postings ensures PostingHeld(added, p) {
        assert PostingHeld(t, p);
        assert forall a :: a in t.accounts ==> a in added.accounts;
      }
      SettleKeeps(st.(tables := added), Drawn(supply, q));
    }
  }

  lemma AddTransaction(t: Tables, row: Transaction)
    requires WellFormed(t)
    requires forall x :: x in t.transactions ==> x.id < row.id
    ensures WellFormed(t.(transactions := t.transactions + [row]))
    ensures forall id :: FindTransaction(t.transactions, id).Some? ==>
      FindTransaction(t.transactions + [row], id).Some?
  {
    var added := t.(transactions := t.transactions + [row]);
    assert forall x :: x in t.transactions ==> x in added.transactions;
    forall id | FindTransaction(t.transactions, id).Some?
      ensures FindTransaction(added.transactions, id).Some?
    {
      assert FindTransaction(t.transactions, id).value in added.transactions;
    }
    forall p | p in added.postings ensures PostingHeld(added, p) { assert PostingHeld(t, p); }
  }

  function WithTransaction(st: State, row: Transaction): State {
    st.(tables := st.tables.(transactions := st.tables.transactions + [row]),
        pending := st.pending + [TransactionWritten(row.id)])
  }

  lemma WithTransactionAccounted(st: State, row: Transaction)
    requires Accounted(st.tables, st.pending)
    ensures Accounted(WithTransaction(st, row).tables, WithTransaction(st, row).pending)
  {
    assert forall e :: e in WithTransaction(st, row).pending <==> e in st.pending || e == TransactionWritten(row.id);
  }

  lemma WithTransactionNamed(st: State, row: Transaction)
    requires PendingNamed(st.tables, st.pending) && WellFormed(st.tables)
    requires forall x :: x in st.tables.transactions ==> x.id < row.id
    ensures PendingNamed(WithTransaction(st, row).tables, WithTransaction(st, row).pending)
  {
    AddTransaction(st.tables, row);
    assert row in WithTransaction(st, row).tables.transactions;
  }

  lemma WithTransactionSound(st: State, supply: Supply, row: Transaction)
    requires Sound(st, supply) && row.id == supply.transaction
    ensures Sound(WithTransaction(st, row), supply.(transaction := row.id + 1))
  {
    hide WellFormed, Accounted, PendingNamed, FindTransaction;
    var added := WithTransaction(st, row);
    AddTransaction(st.tables, row);
    WithTransactionAccounted(st, row);
    WithTransactionNamed(st, row);
    assert RowPerCheck(added.tables, added.pending) by {
      assert forall id :: CheckQueued(id) in added.pending <==> CheckQueued(id) in st.pending;
      assert QueuedOnce(added.pending);
    }
    assert KeysAccounted(added.tables, added.pending);
    assert Drawable(added.tables, supply.(transaction := row.id + 1));
  }

  lemma TransactionKeeps(st: State, supply: Supply, now: int, q: Stmt)
    requires q.InsertTransaction? && Sound(st, supply) && NothingImmediate(st)
    ensures var r := ExecTransaction(st, supply.transaction, now, q);
      r.Ok? ==> Sound(r.state, Drawn(supply, q)) && NothingImmediate(r.state)
  {
    var occurredAt := if q.occurredAt.Some? then q.occurredAt.value else now;
    var row := Transaction(supply.transaction, q.currency, q.description, occurredAt);
    WithTransactionSound(st, supply, row);
    SettleKeeps(WithTransaction(st, row), Drawn(supply, q));
  }

  lemma QueueCheckKeeps(st: State, id: nat)
    requires RowPerCheck(st.tables, st.pending)
    ensures RowPerCheck(QueueCheck(st, id).tables, QueueCheck(st, id).pending)
    ensures forall e :: e in QueueCheck(st, id).pending <==> e in st.pending || e == CheckQueued(id)
  {
    assert forall e :: e in st.pending + [CheckQueued(id)] <==> e in st.pending || e == CheckQueued(id);
  }

  lemma AddPosting(t: Tables, row: Posting)
    requires WellFormed(t)
    requires forall p :: p in t.postings ==> p.id < row.id
    requires PostingHeld(t, row)
    ensures WellFormed(t.(postings := t.postings + [row]))
  {
    var added := t.(postings := t.postings + [row]);
    forall p | p in added.postings ensures PostingHeld(added, p) {
      assert p == row || p in t.postings;
      assert PostingHeld(t, p);
    }
  }

  lemma BalancesElsewhere(ps: seq<Posting>, row: Posting, id: nat)
    requires row.transaction != id
    ensures Balances(ps + [row], id) == Balances(ps, id)
  {
    OfConcat(ps, [row], id);
    OfOthers([row], id);
    assert Of(ps, id) + [] == Of(ps, id);
  }

  function WithPosting(st: State, row: Posting): State {
    QueueCheck(st.(tables := st.tables.(postings := st.tables.postings + [row])), row.transaction)
  }

  lemma WithPostingAccounted(st: State, row: Posting)
    requires Accounted(st.tables, st.pending) && RowPerCheck(st.tables, st.pending)
    ensures Accounted(WithPosting(st, row).tables, WithPosting(st, row).pending)
  {
    var added := WithPosting(st, row);
    QueueCheckKeeps(st.(tables := st.tables.(postings := st.tables.postings + [row])), row.transaction);
    forall x | x in st.tables.transactions && x.id != row.transaction
      ensures Balances(added.tables.postings, x.id) == Balances(st.tables.postings, x.id)
    {
      BalancesElsewhere(st.tables.postings, row, x.id);
    }
  }

  /** The check rows play no part in the keys and shapes of the other tables. */
  lemma ChecksAside(t: Tables, checks: set<nat>)
    requires WellFormed(t)
    ensures WellFormed(t.(checks := checks))
  {
    forall p | p in t.postings ensures PostingHeld(t.(checks := checks), p) { assert PostingHeld(t, p); }
  }

  lemma WithPostingNamed(st: State, row: Posting)
    requires PendingNamed(st.tables, st.pending) && RowPerCheck(st.tables, st.pending) && PostingHeld(st.tables, row)
    ensures PendingNamed(WithPosting(st, row).tables, WithPosting(st, row).pending)
  {
    var added := WithPosting(st, row);
    QueueCheckKeeps(st.(tables := st.tables.(postings := st.tables.postings + [row])), row.transaction);
    assert NamesTransaction(st.tables.transactions, row.transaction, row.currency);
    assert FindTransaction(st.tables.transactions, row.transaction).Some?;
    assert added.tables.transactions == st.tables.transactions && added.tables.keys == st.tables.keys;
  }

  lemma WithPostingSound(st: State, supply: Supply, row: Posting)
    requires Sound(st, supply) && row.id == supply.posting && PostingHeld(st.tables, row)
    ensures Sound(WithPosting(st, row), supply.(posting := row.id + 1))
  {
    var added := WithPosting(st, row);
    var written := st.tables.(postings := st.tables.postings + [row]);
    AddPosting(st.tables, row);
    ChecksAside(written, added.tables.checks);
    assert added.tables == written.(checks := added.tables.checks);
    QueueCheckKeeps(st.(tables := written), row.transaction);
    WithPostingAccounted(st, row);
    WithPostingNamed(st, row);
    assert KeysAccounted(added.tables, added.pending);
    assert Drawable(added.tables, supply.(posting := row.id + 1));
  }

  lemma PostingKeeps(st: State, supply: Supply, q: Stmt)
    requires q.InsertPosting? && Sound(st, supply) && NothingImmediate(st)
    ensures var r := ExecPosting(st, supply.posting, q);
      r.Ok? ==> Sound(r.state, Drawn(supply, q)) && NothingImmediate(r.state)
  {
    hide Settle, FindAccount, Sound, NothingImmediate, NamesTransaction, NamesAccount;
    var account := FindAccount(st.tables.accounts, q.code);
    if account.Some? && q.amount != 0 &&
      NamesTransaction(st.tables.transactions, q.transaction, account.value.currency) {
      var row := Posting(supply.posting, q.transaction, account.value.id, account.value.currency, q.amount);
      WithPostingSound(st, supply, row);
      SettleKeeps(WithPosting(st, row), Drawn(supply, q));
    }
  }

  lemma WriteKeyKeeps(st: State, supply: Supply, key: string, row: KeyRow)
    requires Sound(st, supply)
    requires row.transaction.Some? ==> FindTransaction(st.tables.transactions, row.transaction.value).Some?
    ensures Sound(WriteKey(st, key, row), supply)
  {
    var after := WriteKey(st, key, row);
    assert forall e :: e in after.pending <==> e in st.pending || e == KeyWritten(key);
    forall p | p in after.tables.postings ensures PostingHeld(after.tables, p) { assert PostingHeld(st.tables, p); }
    assert QueuedOnce(after.pending);
    assert after.pending[|st.pending|] == KeyWritten(key);
  }

  lemma KeyKeeps(st: State, supply: Supply, q: Stmt)
    requires q.InsertKey? && Sound(st, supply) && NothingImmediate(st)
    ensures var r := ExecKey(st, q);
      r.Ok? ==> Sound(r.state, supply) && NothingImmediate(r.state)
  {
    if ExecKey(st, q).Ok? {
      WriteKeyKeeps(st, supply, q.key, KeyRow(q.hash, None));
      SettleKeeps(WriteKey(st, q.key, KeyRow(q.hash, None)), supply);
    }
  }

  lemma UpdateKeyKeeps(st: State, supply: Supply, q: Stmt)
    requires q.UpdateKey? && Sound(st, supply) && NothingImmediate(st)
    ensures var r := ExecUpdateKey(st, q);
      r.Ok? ==> Sound(r.state, supply) && NothingImmediate(r.state)
  {
    if q.key !in st.tables.keys {
      SettleKeeps(st, supply);
    } else if ExecUpdateKey(st, q).Ok? {
      WriteKeyKeeps(st, supply, q.key, KeyRow(q.hash, q.result));
      SettleKeeps(WriteKey(st, q.key, KeyRow(q.hash, q.result)), supply);
    }
  }

  lemma OutcomeKeeps(s: Session, q: Stmt)
    requires Valid(s) && !(q.Savepoint? || q.RollbackTo? || q.Release?) && ExecOutcome(s, q).Ok?
    ensures Sound(ExecOutcome(s, q).state, Drawn(s.supply, q)) && NothingImmediate(ExecOutcome(s, q).state)
  {
    match q
    case SetConstraints(names, immediately) =>
      if immediately { SettleKeeps(s.state.(immediate := s.state.immediate + names), s.supply); }
    case InsertAccount(_, _, _, _) => AccountKeeps(s.state, s.supply, q);
    case InsertTransaction(_, _, _) => TransactionKeeps(s.state, s.supply, s.now, q);
    case InsertPosting(_, _, _) => PostingKeeps(s.state, s.supply, q);
    case MutatePosting(_) => SettleKeeps(s.state, s.supply);
    case MutateTransaction(_) => SettleKeeps(s.state, s.supply);
    case InsertKey(_, _) => KeyKeeps(s.state, s.supply, q);
    case RecordResult(key, id) =>
      if key in s.state.tables.keys && s.state.tables.keys[key].transaction.None? {
        UpdateKeyKeeps(s.state, s.supply, UpdateKey(key, s.state.tables.keys[key].hash, Some(id)));
      } else {
        SettleKeeps(s.state, s.supply);
      }
    case UpdateKey(_, _, _) => UpdateKeyKeeps(s.state, s.supply, q);
  }

  /** Every statement, refused or not, keeps the invariant of the transaction and of
      every savepoint it could roll back to. */
  lemma ExecKeeps(s: Session, q: Stmt)
    requires Valid(s)
    ensures Valid(Exec(s, q).0)
  {
    if !(q.Savepoint? || q.RollbackTo? || q.Release?) && !s.aborted {
      forall st | Sound(st, s.supply) ensures Sound(st, Drawn(s.supply, q)) {}
      if ExecOutcome(s, q).Ok? { OutcomeKeeps(s, q); }
    }
  }

  lemma {:induction false} RunKeeps(s: Session, qs: seq<Stmt>)
    requires Valid(s)
    ensures Valid(Run(s, qs))
  {
    if qs == [] {
    } else {
      RunKeeps(s, qs[..|qs| - 1]);
      ExecKeeps(Run(s, qs[..|qs| - 1]), qs[|qs| - 1]);
    }
  }

  // ---------------------------------------------------------------- commit

  lemma QueuedFailure(t: Tables, pending: seq<Event>)
    requires PendingNamed(t, pending) && !AllPass(t, pending, ALL_CONSTRAINTS)
    ensures (exists x :: x in t.transactions && !Balances(t.postings, x.id))
         || (exists k :: k in t.keys && t.keys[k].transaction.None?)
  {
    var e :| e in pending && !Passes(t, e);
    match e
    case TransactionWritten(id) => assert FindTransaction(t.transactions, id).value in t.transactions;
    case CheckQueued(id) => assert FindTransaction(t.transactions, id).value in t.transactions;
    case KeyWritten(k) => assert k in t.keys;
  }

  /** COMMIT is taken exactly when every transaction in the book balances and every key
      is settled, and what it publishes is a book at rest: two legs or more to an
      entry, no check row left, no key without its result. */
  lemma CommitMeans(s: Session)
    requires Valid(s)
    ensures Commit(s).Ok? <==>
      !s.aborted
      && (forall x :: x in s.state.tables.transactions ==> Balances(s.state.tables.postings, x.id))
      && (forall k :: k in s.state.tables.keys ==> s.state.tables.keys[k].transaction.Some?)
    ensures Commit(s).Ok? ==>
      && AtRest(Commit(s).state.tables)
      && Commit(s).state.tables == s.state.tables.(checks := {})
      && Commit(s).state.pending == []
      && forall x :: x in s.state.tables.transactions ==> |Of(s.state.tables.postings, x.id)| >= 2
  {
    var st := s.state;
    var t := st.tables;
    FireMeans(t, st.pending, ALL_CONSTRAINTS);
    AllFired(st.pending);
    if AllPass(t, st.pending, ALL_CONSTRAINTS) {
      forall x | x in t.transactions ensures Balances(t.postings, x.id) {
        assert TransactionWritten(x.id) in st.pending ==> Passes(t, TransactionWritten(x.id));
        assert CheckQueued(x.id) in st.pending ==> Passes(t, CheckQueued(x.id));
      }
      forall x | x in t.transactions ensures |Of(t.postings, x.id)| >= 2 {
        assert forall p :: p in t.postings ==> PostingHeld(t, p);
        BalancedHasTwoLegs(t.postings, x.id);
      }
      forall k | k in t.keys ensures t.keys[k].transaction.Some? {
        assert KeyWritten(k) in st.pending ==> Passes(t, KeyWritten(k));
      }
      forall id | id in t.checks ensures id in Answered(st.pending, ALL_CONSTRAINTS) {
        assert CheckQueued(id) in st.pending && ConstraintOf(CheckQueued(id)) in ALL_CONSTRAINTS;
      }
      assert t.checks - Answered(st.pending, ALL_CONSTRAINTS) == {};
      var after := t.(checks := {});
      assert forall p :: p in t.postings ==> PostingHeld(t, p) && PostingHeld(after, p);
    } else {
      QueuedFailure(t, st.pending);
    }
  }

  /** And a refused COMMIT raises the error of what is wrong: an entry that does not balance,
      or a key with no result. */
  lemma CommitRefuses(s: Session)
    requires Valid(s) && Commit(s).Err?
    ensures var t, error := s.state.tables, Commit(s).error;
      || (s.aborted && error == InFailedTransaction)
      || (error == DoesNotBalance && exists x :: x in t.transactions && !Balances(t.postings, x.id))
      || (error == NotSettled && exists k :: k in t.keys && t.keys[k].transaction.None?)
  {
    hide WellFormed, Drawable, Accounted, RowPerCheck, KeysAccounted, Balances;
    FireMeans(s.state.tables, s.state.pending, ALL_CONSTRAINTS);
    if !s.aborted {
      var e :| e in s.state.pending && !Passes(s.state.tables, e) && Commit(s).error == RaisedBy(e);
      if !e.KeyWritten? {
        assert e == TransactionWritten(e.id) || e == CheckQueued(e.id);
        assert FindTransaction(s.state.tables.transactions, e.id).value in s.state.tables.transactions;
      }
    }
  }

  /** From a book at rest, over any statements at all, a commit that is taken leaves a
      book at rest. */
  lemma CommittedIsAtRest(t: Tables, supply: Supply, now: int, qs: seq<Stmt>)
    requires AtRest(t) && Drawable(t, supply)
    ensures var r := Commit(Run(Begin(t, supply, now), qs)); r.Ok? ==> AtRest(r.state.tables)
  {
    BeginIsValid(t, supply, now);
    RunKeeps(Begin(t, supply, now), qs);
    CommitMeans(Run(Begin(t, supply, now), qs));
  }

  // ----------------------------------------------------------- append-only

  /** `later` keeps every row of `earlier` where it was, and the result of every
      settled key. */
  ghost predicate Extends(earlier: Tables, later: Tables) {
    && earlier.accounts <= later.accounts
    && earlier.transactions <= later.transactions
    && earlier.postings <= later.postings
    && (forall k :: k in earlier.keys ==>
         k in later.keys && later.keys[k].hash == earlier.keys[k].hash
         && (earlier.keys[k].transaction.Some? ==> later.keys[k] == earlier.keys[k]))
  }

  /** The state and every savepoint still hold what the transaction began with. */
  ghost predicate Grown(t: Tables, s: Session) {
    Extends(t, s.state.tables) && forall v :: v in s.saves ==> Extends(t, v.state.tables)
  }

  lemma FireExtends(t: Tables, st: State)
    ensures Extends(t, st.tables) && Settle(st).Ok? ==> Extends(t, Settle(st).state.tables)
  {
    FireMeans(st.tables, st.pending, st.immediate);
  }

  lemma KeyOutcomeExtends(t: Tables, s: Session, q: Stmt)
    requires Extends(t, s.state.tables)
    requires (q.InsertKey? || q.RecordResult? || q.UpdateKey?) && ExecOutcome(s, q).Ok?
    ensures Extends(t, ExecOutcome(s, q).state.tables)
  {
    var st := s.state;
    FireExtends(t, st);
    if q.InsertKey? {
      FireExtends(t, WriteKey(st, q.key, KeyRow(q.hash, None)));
    } else if q.key in st.tables.keys {
      FireExtends(t, WriteKey(st, q.key,
        KeyRow(st.tables.keys[q.key].hash, if q.RecordResult? then Some(q.transaction) else q.result)));
    }
  }

  lemma OutcomeExtends(t: Tables, s: Session, q: Stmt)
    requires Extends(t, s.state.tables)
    requires !(q.Savepoint? || q.RollbackTo? || q.Release?) && ExecOutcome(s, q).Ok?
    ensures Extends(t, ExecOutcome(s, q).state.tables)
  {
    var st := s.state;
    match q
    case SetConstraints(names, immediately) =>
      if immediately { FireExtends(t, st.(immediate := st.immediate + names)); }
    case InsertAccount(code, name, kind, currency) =>
      var row := Account(s.supply.account, code, name, KindOf(kind).value, currency);
      FireExtends(t, st.(tables := st.tables.(accounts := st.tables.accounts + [row])));
    case InsertTransaction(currency, description, occurredAt) =>
      var row := Transaction(s.supply.transaction, currency, description,
                             if occurredAt.Some? then occurredAt.value else s.now);
      FireExtends(t, WithTransaction(st, row));
    case InsertPosting(transaction, code, amount) =>
      var account := FindAccount(st.tables.accounts, code).value;
      FireExtends(t, WithPosting(st, Posting(s.supply.posting, transaction, account.id, account.currency, amount)));
    case MutatePosting(_) => FireExtends(t, st);
    case MutateTransaction(_) => FireExtends(t, st);
    case _ => KeyOutcomeExtends(t, s, q);
  }

  lemma ExecExtends(t: Tables, s: Session, q: Stmt)
    requires Grown(t, s)
    ensures Grown(t, Exec(s, q).0)
  {
    if !(q.Savepoint? || q.RollbackTo? || q.Release?) && !s.aborted && ExecOutcome(s, q).Ok? {
      OutcomeExtends(t, s, q);
    }
  }

  /** No statement changes or removes a committed posting, or the result a committed
      key names. */
  lemma {:induction false} RunExtends(t: Tables, s: Session, qs: seq<Stmt>)
    requires Grown(t, s)
    ensures Grown(t, Run(s, qs))
  {
    if qs == [] {
    } else {
      RunExtends(t, s, qs[..|qs| - 1]);
      ExecExtends(t, Run(s, qs[..|qs| - 1]), qs[|qs| - 1]);
    }
  }
}
