/** The design the queued check replaces: one full sum per leg, from a deferred trigger
    on postings itself. Both take and refuse the same transactions; they do not read
    the same number of postings to decide. */
module Naive {
  import opened Text
  import opened Book
  import opened Engine
  import opened Invariant
  import opened Simple
  import opened PostProof
  import LedgerCalls

  /** Every leg queues a check of its transaction; there is no balance_checks row. */
  function QueueEach(st: State, id: nat): State { st.(pending := st.pending + [CheckQueued(id)]) }

  function NaivePosting(st: State, id: nat, q: Stmt): Outcome
    requires q.InsertPosting?
  {
    var account := FindAccount(st.tables.accounts, q.code);
    if account.None? then Err(NotNull("account_id"))
    else if q.amount == 0 then Err(CheckFailed("amount_minor"))
    else if !NamesTransaction(st.tables.transactions, q.transaction, account.value.currency) then
      Err(ForeignKey("transaction_id_currency"))
    else
      var row := Posting(id, q.transaction, account.value.id, account.value.currency, q.amount);
      Settle(QueueEach(st.(tables := st.tables.(postings := st.tables.postings + [row])), q.transaction))
  }

  function NaiveExec(s: Session, q: Stmt): (Session, Reply) {
    if q.InsertPosting? && !s.aborted then
      var drawn := s.(supply := Drawn(s.supply, q));
      match NaivePosting(s.state, s.supply.posting, q)
      case Err(error) => Abort(drawn, error)
      case Ok(st) => (drawn.(state := st), Done)
    else Exec(s, q)
  }

  function NaiveRun(s: Session, qs: seq<Stmt>): Session {
    if qs == [] then s else NaiveExec(NaiveRun(s, qs[..|qs| - 1]), qs[|qs| - 1]).0
  }

  // ------------------------------------------------------------- simulation

  /** The same rows and the same firings owed, counted once or many times. */
  ghost predicate Alike(a: State, b: State) {
    && b.tables == a.tables.(checks := {})
    && RowPerCheck(a.tables, a.pending)
    && (forall e :: e in a.pending <==> e in b.pending)
    && a.immediate == b.immediate
  }

  ghost predicate AlikeSessions(s: Session, n: Session) {
    && Alike(s.state, n.state)
    && s.aborted == n.aborted && s.supply == n.supply && s.now == n.now
    && |s.saves| == |n.saves|
    && forall i :: 0 <= i < |s.saves| ==>
         s.saves[i].name == n.saves[i].name && Alike(s.saves[i].state, n.saves[i].state)
  }

  lemma SettleAlike(a: State, b: State)
    requires Alike(a, b)
    ensures Settle(a).Ok? == Settle(b).Ok?
    ensures Settle(a).Ok? ==> Alike(Settle(a).state, Settle(b).state)
  {
    FireMeans(a.tables, a.pending, a.immediate);
    FireMeans(b.tables, b.pending, b.immediate);
    assert forall e :: Passes(a.tables, e) == Passes(b.tables, e);
    assert AllPass(a.tables, a.pending, a.immediate) == AllPass(b.tables, b.pending, b.immediate);
    KeptMembers(a.pending, a.immediate);
    KeptMembers(b.pending, b.immediate);
    KeptQueuedOnce(a.pending, a.immediate);
    forall id ensures CheckQueued(id) in a.pending && BalanceChecksMustBalance in a.immediate
                 <==> id in Answered(a.pending, a.immediate)
    {
      if CheckQueued(id) in a.pending && BalanceChecksMustBalance in a.immediate {
        assert ConstraintOf(CheckQueued(id)) in a.immediate;
      }
    }
    assert {} - Answered(b.pending, b.immediate) == {};
  }

  lemma PostingAlike(a: State, b: State, id: nat, q: Stmt)
    requires Alike(a, b) && q.InsertPosting?
    ensures ExecPosting(a, id, q).Ok? == NaivePosting(b, id, q).Ok?
    ensures ExecPosting(a, id, q).Ok? ==> Alike(ExecPosting(a, id, q).state, NaivePosting(b, id, q).state)
  {
    hide Settle;
    var account := FindAccount(a.tables.accounts, q.code);
    if account.Some? && q.amount != 0 &&
      NamesTransaction(a.tables.transactions, q.transaction, account.value.currency) {
      var row := Posting(id, q.transaction, account.value.id, account.value.currency, q.amount);
      var written := a.(tables := a.tables.(postings := a.tables.postings + [row]));
      var naive := b.(tables := b.tables.(postings := b.tables.postings + [row]));
      WrittenAlike(written, naive, q.transaction);
      SettleAlike(QueueCheck(written, q.transaction), QueueEach(naive, q.transaction));
    }
  }

  lemma WrittenAlike(a: State, b: State, id: nat)
    requires Alike(a, b)
    ensures Alike(QueueCheck(a, id), QueueEach(b, id))
  {
    QueueCheckKeeps(a, id);
  }

  /** The statements other than a leg queue the same firings in both. */
  lemma QueuedAlike(a: State, b: State, e: Event, accounts: seq<Account>, transactions: seq<Transaction>,
      keys: map<string, KeyRow>)
    requires Alike(a, b) && !e.CheckQueued?
    ensures
      var x := a.(tables := a.tables.(accounts := accounts, transactions := transactions, keys := keys));
      var y := b.(tables := b.tables.(accounts := accounts, transactions := transactions, keys := keys));
      && Alike(x, y)
      && Alike(x.(pending := x.pending + [e]), y.(pending := y.pending + [e]))
  {
    var x := a.(pending := a.pending + [e]);
    assert forall f :: f in x.pending <==> f in a.pending || f == e;
    assert QueuedOnce(x.pending);
  }

  lemma RowsAlike(s: Session, n: Session, q: Stmt)
    requires Alike(s.state, n.state) && s.supply == n.supply && s.now == n.now
    requires q.InsertAccount? || q.InsertTransaction? || q.InsertKey?
    ensures ExecOutcome(s, q).Ok? == ExecOutcome(n, q).Ok?
    ensures ExecOutcome(s, q).Ok? ==> Alike(ExecOutcome(s, q).state, ExecOutcome(n, q).state)
  {
    hide Settle, Alike;
    var a, b := s.state, n.state;
    AlikeTables(a, b);
    match q
    case InsertAccount(code, name, kind, currency) =>
      if KindOf(kind).Some? {
        var rows := a.tables.accounts + [Account(s.supply.account, code, name, KindOf(kind).value, currency)];
        QueuedAlike(a, b, KeyWritten(""), rows, a.tables.transactions, a.tables.keys);
        SettleAlike(a.(tables := a.tables.(accounts := rows)), b.(tables := b.tables.(accounts := rows)));
      }
    case InsertTransaction(currency, description, at) =>
      var row := Transaction(s.supply.transaction, currency, description, if at.Some? then at.value else s.now);
      QueuedAlike(a, b, TransactionWritten(row.id), a.tables.accounts, a.tables.transactions + [row], a.tables.keys);
      SettleAlike(WithTransaction(a, row), WithTransaction(b, row));
    case InsertKey(key, hash) =>
      KeyWriteAlike(a, b, key, KeyRow(hash, None));
  }

  lemma AlikeTables(a: State, b: State)
    requires Alike(a, b)
    ensures b.tables == a.tables.(checks := {})
  {
  }

  lemma KeyWriteAlike(a: State, b: State, key: string, row: KeyRow)
    requires Alike(a, b)
    ensures Settle(WriteKey(a, key, row)).Ok? == Settle(WriteKey(b, key, row)).Ok?
    ensures Settle(WriteKey(a, key, row)).Ok? ==>
      Alike(Settle(WriteKey(a, key, row)).state, Settle(WriteKey(b, key, row)).state)
  {
    hide Settle;
    QueuedAlike(a, b, KeyWritten(key), a.tables.accounts, a.tables.transactions, a.tables.keys[key := row]);
    SettleAlike(WriteKey(a, key, row), WriteKey(b, key, row));
  }

  lemma UpdatesAlike(s: Session, n: Session, q: Stmt)
    requires Alike(s.state, n.state) && s.supply == n.supply && s.now == n.now
    requires q.SetConstraints? || q.MutatePosting? || q.MutateTransaction? || q.Truncate? || q.RecordResult? ||
      q.UpdateKey?
    ensures ExecOutcome(s, q).Ok? == ExecOutcome(n, q).Ok?
    ensures ExecOutcome(s, q).Ok? ==> Alike(ExecOutcome(s, q).state, ExecOutcome(n, q).state)
  {
    hide Settle;
    var a, b := s.state, n.state;
    SettleAlike(a, b);
    match q
    case SetConstraints(names, immediately) =>
      if immediately {
        SettleAlike(a.(immediate := a.immediate + names), b.(immediate := b.immediate + names));
      }
    case MutatePosting(_) =>
    case MutateTransaction(_) =>
    case Truncate =>
    case RecordResult(key, id) =>
      if key in a.tables.keys { KeyWriteAlike(a, b, key, KeyRow(a.tables.keys[key].hash, Some(id))); }
    case UpdateKey(key, hash, result) => KeyWriteAlike(a, b, key, KeyRow(hash, result));
  }

  lemma {:induction false} SameInnermost(a: seq<Save>, b: seq<Save>, name: string)
    requires |a| == |b| && forall i :: 0 <= i < |a| ==> a[i].name == b[i].name
    ensures Innermost(a, name) == Innermost(b, name)
  {
    if a == [] {
    } else {
      SameInnermost(a[..|a| - 1], b[..|b| - 1], name);
    }
  }

  /** Statement for statement, the two designs take and refuse together. */
  lemma ExecAlike(s: Session, n: Session, q: Stmt)
    requires AlikeSessions(s, n)
    ensures AlikeSessions(Exec(s, q).0, NaiveExec(n, q).0)
    ensures Exec(s, q).1.Raised? == NaiveExec(n, q).1.Raised?
  {
    hide Alike, Settle, ExecOutcome, ExecPosting, NaivePosting, Innermost;
    SameInnermost(s.saves, n.saves, if q.RollbackTo? || q.Release? then q.name else "");
    if !s.aborted && !(q.Savepoint? || q.RollbackTo? || q.Release?) {
      if q.InsertPosting? {
        PostingAlike(s.state, n.state, s.supply.posting, q);
        PostingOutcome(s, q);
      } else if q.InsertAccount? || q.InsertTransaction? || q.InsertKey? {
        RowsAlike(s, n, q);
      } else {
        UpdatesAlike(s, n, q);
      }
    }
  }

  lemma PostingOutcome(s: Session, q: Stmt)
    requires q.InsertPosting?
    ensures ExecOutcome(s, q) == ExecPosting(s.state, s.supply.posting, q)
  {
  }

  lemma {:induction false} RunAlike(s: Session, n: Session, qs: seq<Stmt>)
    requires AlikeSessions(s, n)
    ensures AlikeSessions(Run(s, qs), NaiveRun(n, qs))
  {
    if qs == [] {
    } else {
      RunAlike(s, n, qs[..|qs| - 1]);
      ExecAlike(Run(s, qs[..|qs| - 1]), NaiveRun(n, qs[..|qs| - 1]), qs[|qs| - 1]);
    }
  }

  /** Over any statements, COMMIT is taken by the queued design exactly when it is taken
      by the naive one, and publishes the same tables. */
  lemma SameCommits(t: Tables, supply: Supply, now: int, qs: seq<Stmt>)
    requires AtRest(t) && Drawable(t, supply)
    ensures
      var queued := Commit(Run(Begin(t, supply, now), qs));
      var naive := Commit(NaiveRun(Begin(t, supply, now), qs));
      queued.Ok? == naive.Ok? && (queued.Ok? ==> queued.state.tables == naive.state.tables)
  {
    var s, n := Run(Begin(t, supply, now), qs), NaiveRun(Begin(t, supply, now), qs);
    RunAlike(Begin(t, supply, now), Begin(t, supply, now), qs);
    BeginIsValid(t, supply, now);
    RunKeeps(Begin(t, supply, now), qs);
    if !s.aborted {
      var a, b := s.state.(immediate := ALL_CONSTRAINTS), n.state.(immediate := ALL_CONSTRAINTS);
      SettleAlike(a, b);
      CommitMeans(s);
      assert Settle(a) == Commit(s) && Settle(b) == Commit(n);
    }
  }

  // ------------------------------------------------------------------ reads

  /** The postings summed by the firings an IMMEDIATE or a COMMIT asks for. */
  function Reads(t: Tables, pending: seq<Event>): nat {
    if pending == [] then 0
    else
      var last := pending[|pending| - 1];
      Reads(t, pending[..|pending| - 1]) + if last.KeyWritten? then 0 else |Of(t.postings, last.id)|
  }

  function Times(e: Event, n: nat): seq<Event> { if n == 0 then [] else Times(e, n - 1) + [e] }

  lemma {:induction false} ReadsConcat(t: Tables, a: seq<Event>, b: seq<Event>)
    ensures Reads(t, a + b) == Reads(t, a) + Reads(t, b)
    decreases |b|
  {
    if b == [] {
      assert a + b == a;
    } else {
      ReadsConcat(t, a, b[..|b| - 1]);
      assert (a + b)[..|a + b| - 1] == a + b[..|b| - 1];
    }
  }

  lemma {:induction false} ReadsTimes(t: Tables, id: nat, n: nat)
    ensures Reads(t, Times(CheckQueued(id), n)) == n * |Of(t.postings, id)|
  {
    hide Of;
    if n == 0 {
    } else {
      var each := |Of(t.postings, id)|;
      var most, all := Times(CheckQueued(id), n - 1), Times(CheckQueued(id), n);
      ReadsTimes(t, id, n - 1);
      assert all[..|all| - 1] == most && all[|all| - 1] == CheckQueued(id);
      assert (n - 1) * each + each == n * each;
    }
  }

  // --------------------------------------------------- an entry, in the two designs

  /** What post sends: the deferral, the row, and the first `n` legs. */
  function EntrySent(e: Entry, id: nat, n: nat): seq<Stmt>
    requires n <= |e.legs|
  {
    if n == 0 then
      [SetConstraints(BALANCE_CONSTRAINTS, false), InsertTransaction(e.currency, e.description, e.occurredAt)]
    else EntrySent(e, id, n - 1) + [InsertPosting(id, e.legs[n - 1].account, e.legs[n - 1].amount)]
  }

  /** The naive design once the first `n` legs are in: one check queued for the row, and
      one for each leg. */
  ghost function NaivePartial(st: State, e: Entry, id: nat, first: nat, now: int, n: nat): State
    requires n <= |e.legs| && Resolved(st.tables.accounts, e.legs[..n])
  {
    Partial(st, e, id, first, now, n).(
      tables := Partial(st, e, id, first, now, n).tables.(checks := st.tables.checks),
      pending := st.pending + [TransactionWritten(id)] + Times(CheckQueued(id), n))
  }

  /** Each leg the naive design takes queues one more. */
  lemma NaiveLegQueued(st: State, e: Entry, id: nat, first: nat, now: int, n: nat)
    requires n < |e.legs| && Resolved(st.tables.accounts, e.legs[..n + 1])
    ensures Resolved(st.tables.accounts, e.legs[..n])
    ensures
      var row := LegRow(st.tables.accounts, id, first + n, e.legs[n]);
      var before := NaivePartial(st, e, id, first, now, n);
      QueueEach(before.(tables := before.tables.(postings := before.tables.postings + [row])), id)
        == NaivePartial(st, e, id, first, now, n + 1)
  {
    LegRowsSnoc(st.tables.accounts, id, first, e.legs, n);
    var row := LegRow(st.tables.accounts, id, first + n, e.legs[n]);
    var before, after := NaivePartial(st, e, id, first, now, n), NaivePartial(st, e, id, first, now, n + 1);
    assert after.tables.postings == before.tables.postings + [row];
    assert after.pending == before.pending + [CheckQueued(id)];
  }

  lemma {:induction false} TimesMembers(e: Event, n: nat)
    ensures forall x :: x in Times(e, n) ==> x == e
  {
    if n == 0 {
    } else {
      TimesMembers(e, n - 1);
    }
  }

  lemma NaiveIsQuiet(st: State, e: Entry, id: nat, first: nat, now: int, n: nat)
    requires NothingImmediate(st) && n <= |e.legs| && Resolved(st.tables.accounts, e.legs[..n])
    ensures NothingImmediate(NaivePartial(st, e, id, first, now, n))
  {
    TimesMembers(CheckQueued(id), n);
  }

  /** One leg that breaks no rule. */
  lemma NaiveLegWritten(s: Session, e: Entry, n: nat)
    requires Valid(s) && n < |e.legs| && Resolved(s.state.tables.accounts, e.legs[..n])
    requires LegFault(s.state.tables.accounts, e.currency, e.legs[n], n).None?
    ensures Resolved(s.state.tables.accounts, e.legs[..n + 1])
    ensures
      var id, first := s.supply.transaction, s.supply.posting;
      NaivePosting(NaivePartial(s.state, e, id, first, s.now, n), first + n,
                   InsertPosting(id, e.legs[n].account, e.legs[n].amount))
        == Ok(NaivePartial(s.state, e, id, first, s.now, n + 1))
  {
    hide Valid, NaivePartial, Settle;
    ValidGives(s);
    var st, id, first := s.state, s.supply.transaction, s.supply.posting;
    var account := FindAccount(st.tables.accounts, e.legs[n].account).value;
    assert Resolved(st.tables.accounts, e.legs[..n + 1]);
    LegNamesTransaction(st.tables, e, id, s.now, account.currency);
    NaiveRows(st, e, id, first, s.now, n);
    NaiveLegQueued(st, e, id, first, s.now, n);
    NaiveIsQuiet(st, e, id, first, s.now, n + 1);
    QuietSettle(NaivePartial(st, e, id, first, s.now, n + 1));
  }

  lemma NaiveRows(st: State, e: Entry, id: nat, first: nat, now: int, n: nat)
    requires n <= |e.legs| && Resolved(st.tables.accounts, e.legs[..n])
    ensures NaivePartial(st, e, id, first, now, n).tables.transactions == st.tables.transactions + [Header(e, id, now)]
    ensures NaivePartial(st, e, id, first, now, n).tables.accounts == st.tables.accounts
  {
  }

  /** An entry that breaks no rule up to leg `n`, sent from any valid transaction. */
  ghost predicate Sends(s: Session, e: Entry, n: nat)
    requires n <= |e.legs|
  {
    && Valid(s) && !s.aborted && TransactionCheck(e.currency, e.description).None?
    && forall i :: 0 <= i < n ==> LegFault(s.state.tables.accounts, e.currency, e.legs[i], i).None?
  }

  lemma OneMore(s: Session, qs: seq<Stmt>, q: Stmt)
    ensures Run(s, qs + [q]) == Exec(Run(s, qs), q).0
    ensures NaiveRun(s, qs + [q]) == NaiveExec(NaiveRun(s, qs), q).0
  {
    assert (qs + [q])[..|qs|] == qs;
  }

  lemma NaiveRow(st: State, e: Entry, id: nat, first: nat, now: int)
    requires Resolved(st.tables.accounts, e.legs[..0])
    ensures NaivePartial(st, e, id, first, now, 0) == Partial(st, e, id, first, now, 0)
  {
    var part := Partial(st, e, id, first, now, 0);
    assert part.pending == st.pending + [TransactionWritten(id)] + [];
    assert st.tables.checks + {} == st.tables.checks;
  }

  lemma NaiveHeader(s: Session, e: Entry)
    requires Sends(s, e, 0)
    ensures Resolved(s.state.tables.accounts, e.legs[..0])
    ensures NaiveRun(s, EntrySent(e, s.supply.transaction, 0)) == Run(s, EntrySent(e, s.supply.transaction, 0))
    ensures Run(s, EntrySent(e, s.supply.transaction, 0)) == LedgerCalls.InPart(s, e, 0)
  {
    hide Valid, TransactionCheck, Exec, Run, NaiveRun, LedgerCalls.InPart;
    var qs := EntrySent(e, s.supply.transaction, 0);
    LedgerCalls.RowSent(s, e);
    NothingRun(s);
    OneMore(s, [], qs[0]);
    OneMore(s, [qs[0]], qs[1]);
    assert [] + [qs[0]] == [qs[0]] && [qs[0]] + [qs[1]] == qs;
  }

  lemma NothingRun(s: Session)
    ensures Run(s, []) == s && NaiveRun(s, []) == s
  {
  }

  lemma NaiveSent(s: Session, q: Stmt, st: State)
    requires q.InsertPosting? && !s.aborted && NaivePosting(s.state, s.supply.posting, q) == Ok(st)
    ensures NaiveExec(s, q).0 == s.(state := st, supply := s.supply.(posting := s.supply.posting + 1))
  {
  }

  /** What the queued design comes to: one check for all the legs. */
  lemma {:induction false} QueuedEntry(s: Session, e: Entry, n: nat)
    requires n <= |e.legs| && Sends(s, e, n)
    ensures Resolved(s.state.tables.accounts, e.legs[..n])
    ensures Run(s, EntrySent(e, s.supply.transaction, n)) == LedgerCalls.InPart(s, e, n)
    decreases n
  {
    hide Valid, TransactionCheck, LegFault, LedgerCalls.InPart, Exec;
    if n == 0 {
      NaiveHeader(s, e);
    } else {
      QueuedEntry(s, e, n - 1);
      LedgerCalls.LegSent(s, e, n - 1);
      var qs := EntrySent(e, s.supply.transaction, n);
      assert qs[..|qs| - 1] == EntrySent(e, s.supply.transaction, n - 1);
    }
  }

  /** And the naive one: one for each. */
  lemma {:induction false} NaiveEntry(s: Session, e: Entry, n: nat)
    requires n <= |e.legs| && Sends(s, e, n)
    ensures Resolved(s.state.tables.accounts, e.legs[..n])
    ensures NaiveRun(s, EntrySent(e, s.supply.transaction, n))
         == s.(state := NaivePartial(s.state, e, s.supply.transaction, s.supply.posting, s.now, n),
               supply := LedgerCalls.Sent(s.supply, n))
    decreases n
  {
    hide Valid, TransactionCheck, LegFault, NaivePartial, NaivePosting, NaiveExec, NaiveRun, Run;
    if n == 0 {
      NaiveHeader(s, e);
      NaiveRow(s.state, e, s.supply.transaction, s.supply.posting, s.now);
    } else {
      NaiveEntry(s, e, n - 1);
      NaiveLegWritten(s, e, n - 1);
      var id, first := s.supply.transaction, s.supply.posting;
      var before := s.(state := NaivePartial(s.state, e, id, first, s.now, n - 1),
        supply := LedgerCalls.Sent(s.supply, n - 1));
      var leg := InsertPosting(id, e.legs[n - 1].account, e.legs[n - 1].amount);
      NaiveSent(before, leg, NaivePartial(s.state, e, id, first, s.now, n));
      OneMore(s, EntrySent(e, id, n - 1), leg);
    }
  }

  /** Sent from a transaction that owes nothing, an entry of n legs leaves the queued
      design one check row and 2n postings to read to settle it, and the naive design
      n + n * n. */
  lemma SettlingReads(s: Session, e: Entry)
    requires Sends(s, e, |e.legs|) && s.state.pending == [] && e.legs != []
    ensures
      var n, sent := |e.legs|, EntrySent(e, s.supply.transaction, |e.legs|);
      var queued, naive := Run(s, sent).state, NaiveRun(s, sent).state;
      && queued.tables.checks == {s.supply.transaction}
      && Reads(queued.tables, queued.pending) == 2 * n
      && Reads(naive.tables, naive.pending) == n + n * n
  {
    hide WellFormed, Reads, Valid, LegFault, TransactionCheck, Partial, NaivePartial, RowPerCheck;
    var n := |e.legs|;
    QueuedEntry(s, e, n);
    NaiveEntry(s, e, n);
    ValidGives(s);
    NoChecks(s.state);
    assert e.legs[..n] == e.legs;
    EntryReads(s.state, e, s.supply.transaction, s.supply.posting, s.now);
  }

  lemma EntryReads(st: State, e: Entry, id: nat, first: nat, now: int)
    requires WellFormed(st.tables) && st.pending == [] && st.tables.checks == {} && e.legs != []
    requires forall x :: x in st.tables.transactions ==> x.id != id
    requires Resolved(st.tables.accounts, e.legs) && Resolved(st.tables.accounts, e.legs[..|e.legs|])
    ensures
      var n := |e.legs|;
      var queued, naive := Partial(st, e, id, first, now, n), NaivePartial(st, e, id, first, now, n);
      && queued.tables.checks == {id}
      && Reads(queued.tables, queued.pending) == 2 * n
      && Reads(naive.tables, naive.pending) == n + n * n
  {
    hide Of, WellFormed, LegRows, Times, Reads;
    var n := |e.legs|;
    assert e.legs[..n] == e.legs;
    var queued, naive := Partial(st, e, id, first, now, n), NaivePartial(st, e, id, first, now, n);
    EnteredLegs(st.tables, e, id, first, id);
    assert |Of(queued.tables.postings, id)| == n;
    var t := TransactionWritten(id);
    assert queued.pending == [t] + [CheckQueued(id)];
    assert naive.pending == [t] + Times(CheckQueued(id), n);
    TwoChecks(queued.tables, id);
    EachChecks(naive.tables, id, n);
  }

  lemma NoChecks(st: State)
    requires RowPerCheck(st.tables, st.pending) && st.pending == []
    ensures st.tables.checks == {}
  {
  }

  lemma TwoChecks(t: Tables, id: nat)
    ensures Reads(t, [TransactionWritten(id)] + [CheckQueued(id)]) == 2 * |Of(t.postings, id)|
  {
    ReadsOne(t, TransactionWritten(id));
    ReadsOne(t, CheckQueued(id));
    ReadsConcat(t, [TransactionWritten(id)], [CheckQueued(id)]);
  }

  lemma EachChecks(t: Tables, id: nat, n: nat)
    ensures Reads(t, [TransactionWritten(id)] + Times(CheckQueued(id), n)) ==
      |Of(t.postings, id)| + n * |Of(t.postings, id)|
  {
    ReadsOne(t, TransactionWritten(id));
    ReadsConcat(t, [TransactionWritten(id)], Times(CheckQueued(id), n));
    ReadsTimes(t, id, n);
  }

  lemma ReadsOne(t: Tables, e: Event)
    ensures Reads(t, [e]) == if e.KeyWritten? then 0 else |Of(t.postings, e.id)|
  {
    assert [e][..0] == [];
  }
}
