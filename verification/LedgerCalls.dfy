/** `Post`, `Open` and `Once`: what the ledger sends the caller's transaction, statement
    by statement, and how a refusal is undone. Each is proved to be what the Simple
    module says it is, from any transaction and over any savepoints. */
module LedgerCalls {
  import opened Text
  import opened Book
  import opened Engine
  import opened Invariant
  import opened Simple
  import opened PostProof

  const POST_SAVEPOINT := "ledger_post"
  const OPEN_SAVEPOINT := "ledger_open"
  const ONCE_SAVEPOINT := "ledger_once"

  function LedgerOf(s: Session): Ledger { Ledger(s.state.tables, s.supply) }

  /** What a mismatch carries before `explain` has read which currency the account holds. */
  function Unexplained(why: Refusal): Refusal {
    if why.CurrencyMismatch? then CurrencyMismatch(why.leg, None) else why
  }

  /** classify: the SQLSTATE, and for a leg which one it was. */
  function Classify(error: SqlError, net: int, legs: nat, leg: Option<nat>): Refusal {
    if error.DoesNotBalance? then Unbalanced(net, legs)
    else if error == NotNull("account_id") && leg.Some? then UnknownAccount(leg.value)
    else if error.ForeignKey? && leg.Some? then CurrencyMismatch(leg.value, None)
    else if leg.Some? then LegRejected(leg.value)
    else if error.CheckFailed? then Rejected(error.column)
    else Unusable(error)
  }

  /** Entry.net. */
  method NetOf(e: Entry) returns (sum: int, legs: nat)
    ensures sum == Sum(e.legs) && legs == |e.legs|
  {
    sum := 0;
    for i := 0 to |e.legs|
      invariant sum == Sum(e.legs[..i])
    {
      sum := sum + e.legs[i].amount as int;
      assert e.legs[..i + 1][..i] == e.legs[..i];
    }
    assert e.legs[..|e.legs|] == e.legs;
    legs := |e.legs|;
  }

  // -------------------------------------------- what the statements come to

  /** The defaults drawn once the row and `n` legs have been sent. */
  function Sent(supply: Supply, n: nat): Supply {
    supply.(transaction := supply.transaction + 1, posting := supply.posting + n)
  }

  /** The transaction once the row and the first `n` legs are in. */
  ghost function InPart(s0: Session, e: Entry, n: nat): Session
    requires n <= |e.legs| && Resolved(s0.state.tables.accounts, e.legs[..n])
  {
    s0.(state := Partial(s0.state, e, s0.supply.transaction, s0.supply.posting, s0.now, n),
        supply := Sent(s0.supply, n))
  }

  /** The state an accepted entry leaves: its rows in, no balance check queued, both
      balance constraints deferred. */
  ghost function Accepted(s0: Session, e: Entry): State
    requires Resolved(s0.state.tables.accounts, e.legs)
  {
    State(Enter(s0.state.tables, e, s0.supply.transaction, s0.supply.posting, s0.now),
          Kept(s0.state.pending, BALANCE_CONSTRAINTS),
          s0.state.immediate - BALANCE_CONSTRAINTS)
  }

  function AbortedWith(s0: Session, supply: Supply, st: State): Session {
    s0.(state := st, supply := supply, aborted := true)
  }

  lemma RowRefused(s0: Session, e: Entry)
    requires TransactionCheck(e.currency, e.description).Some?
    ensures forall st ::
      ExecTransaction(st, s0.supply.transaction, s0.now, InsertTransaction(e.currency, e.description, e.occurredAt))
        == Err(CheckFailed(TransactionCheck(e.currency, e.description).value))
  {
  }

  /** The deferral and the row. */
  lemma RowSent(s0: Session, e: Entry)
    requires Valid(s0) && !s0.aborted
    ensures
      var deferred := Engine.Exec(s0, SetConstraints(BALANCE_CONSTRAINTS, false)).0;
      var r := Engine.Exec(deferred, InsertTransaction(e.currency, e.description, e.occurredAt));
      match TransactionCheck(e.currency, e.description)
      case None => Resolved(s0.state.tables.accounts, e.legs[..0]) &&
                   r == (InPart(s0, e, 0), Inserted(s0.supply.transaction))
      case Some(column) =>
        r == (AbortedWith(s0, Sent(s0.supply, 0), deferred.state), Raised(CheckFailed(column)))
  {
    hide Valid, Partial, ExecTransaction;
    if TransactionCheck(e.currency, e.description).None? {
      HeaderWritten(s0, e);
    } else {
      RowRefused(s0, e);
    }
  }

  /** One leg. */
  lemma LegSent(s0: Session, e: Entry, n: nat)
    requires Valid(s0) && !s0.aborted && n < |e.legs| && Resolved(s0.state.tables.accounts, e.legs[..n])
    ensures
      var r := Engine.Exec(InPart(s0, e, n), InsertPosting(s0.supply.transaction, e.legs[n].account, e.legs[n].amount));
      match LegFault(s0.state.tables.accounts, e.currency, e.legs[n], n)
      case None => Resolved(s0.state.tables.accounts, e.legs[..n + 1]) && r == (InPart(s0, e, n + 1), Done)
      case Some(fault) =>
        r == (AbortedWith(s0, Sent(s0.supply, n + 1), InPart(s0, e, n).state), Raised(LegError(fault)))
  {
    hide Valid, Partial, LegFault, LegError, Resolved, ExecPosting;
    LegWritten(s0, e, n);
  }

  lemma FaultAt(accounts: seq<Account>, e: Entry, n: nat)
    requires n <= |e.legs|
    ensures FirstFault(accounts, e, n) ==
      if n == |e.legs| then None
      else if LegFault(accounts, e.currency, e.legs[n], n).Some? then Some(n) else FirstFault(accounts, e, n + 1)
  {
  }

  lemma ConstraintsSent(s: Session, names: set<Constraint>, immediately: bool)
    requires !s.aborted
    ensures Engine.Exec(s, SetConstraints(names, immediately)) ==
      match ExecConstraints(s.state, names, immediately)
      case Ok(st) => (s.(state := st), Done)
      case Err(error) => (s.(aborted := true), Raised(error))
  {
  }

  /** Asking for the sum, and deferring the checks again. */
  lemma SumAsked(s0: Session, e: Entry)
    requires Valid(s0) && !s0.aborted && Resolved(s0.state.tables.accounts, e.legs)
    requires Resolved(s0.state.tables.accounts, e.legs[..|e.legs|]) && Valid(InPart(s0, e, |e.legs|))
    ensures
      var full := InPart(s0, e, |e.legs|);
      var r := Engine.Exec(full, SetConstraints(BALANCE_CONSTRAINTS, true));
      if BookBalances(s0.state.tables) && e.legs != [] && Sum(e.legs) == 0 then
        r.1 == Done && Engine.Exec(r.0, SetConstraints(BALANCE_CONSTRAINTS, false)) ==
          (full.(state := Accepted(s0, e)), Done)
      else r == (AbortedWith(s0, full.supply, full.state), Raised(DoesNotBalance))
  {
    hide Valid, WellFormed, NothingImmediate, Accounted, PendingNamed, RowPerCheck, AllPass, BookBalances, Settle,
         Engine.Exec, Partial, Resolved, Sum;
    var id, first, now := s0.supply.transaction, s0.supply.posting, s0.now;
    var full := InPart(s0, e, |e.legs|);
    ValidGives(s0);
    ValidGives(full);
    EntryPasses(s0.state, e, id, first, now, full.state);
    ConstraintsSent(full, BALANCE_CONSTRAINTS, true);
    if AllPass(full.state.tables, full.state.pending, s0.state.immediate + BALANCE_CONSTRAINTS) {
      EntryFired(s0.state, e, id, first, now, full.state);
      var asked := ExecConstraints(full.state, BALANCE_CONSTRAINTS, true).state;
      ConstraintsSent(full.(state := asked), BALANCE_CONSTRAINTS, false);
      assert (s0.state.immediate + BALANCE_CONSTRAINTS) - BALANCE_CONSTRAINTS ==
        s0.state.immediate - BALANCE_CONSTRAINTS;
    } else {
      EntryRefused(s0.state, e, id, first, now, full.state);
    }
  }

  lemma LegClassified(accounts: seq<Account>, e: Entry, i: nat, net: int)
    requires i < |e.legs| && LegFault(accounts, e.currency, e.legs[i], i).Some?
    ensures var why := LegFault(accounts, e.currency, e.legs[i], i).value;
      Classify(LegError(why), net, |e.legs|, Some(i)) == Unexplained(why)
  {
  }

  /** What a verdict says of the legs. */
  lemma Verdict(t: Tables, e: Entry)
    ensures PostVerdict(t, e).None? ==> Resolved(t.accounts, e.legs)
    ensures FirstFault(t.accounts, e, 0).None? ==> Resolved(t.accounts, e.legs)
    ensures match PostVerdict(t, e)
      case Some(CurrencyMismatch(leg, holds)) =>
        leg < |e.legs| && FindAccount(t.accounts, e.legs[leg].account).Some?
        && holds == Some(FindAccount(t.accounts, e.legs[leg].account).value.currency)
      case _ => true
  {
    var fault := FirstFault(t.accounts, e, 0);
    if fault.None? {
      forall i | 0 <= i < |e.legs| ensures FindAccount(t.accounts, e.legs[i].account).Some? {
        assert LegFault(t.accounts, e.currency, e.legs[i], i).None?;
      }
    }
  }

  /** What a second look at the chart adds to a refusal. */
  function Explained(accounts: seq<Account>, e: Entry, why: Refusal): Refusal
    requires why.CurrencyMismatch? ==> why.leg < |e.legs|
  {
    if why.CurrencyMismatch? && FindAccount(accounts, e.legs[why.leg].account).Some?
    then CurrencyMismatch(why.leg, Some(FindAccount(accounts, e.legs[why.leg].account).value.currency))
    else why
  }

  /** Read off the server's error and explained, a refusal is the verdict itself: the leg,
      the rule it breaks, and the currency its account holds. */
  lemma RefusalIsTheVerdict(t: Tables, e: Entry, net: int)
    ensures var why := PostVerdict(t, e);
      why.Some? && FirstFault(t.accounts, e, 0).Some? && TransactionCheck(e.currency, e.description).None? ==>
        var i := FirstFault(t.accounts, e, 0).value;
        var told := Classify(LegError(why.value), net, |e.legs|, Some(i));
        (told.CurrencyMismatch? ==> told.leg < |e.legs|) && Explained(t.accounts, e, told) == why.value
  {
    var fault := FirstFault(t.accounts, e, 0);
    if fault.Some? {
      LegClassified(t.accounts, e, fault.value, net);
      Verdict(t, e);
    }
  }

  /** The three savepoint statements. */
  lemma SavepointSent(s: Session, name: string)
    ensures Engine.Exec(s, Savepoint(name)) ==
      if s.aborted then (s, Raised(InFailedTransaction)) else (s.(saves := s.saves + [Save(name, s.state)]), Done)
  {
    assert s.aborted ==> s.(aborted := true) == s;
  }

  lemma RollbackSent(s: Session, name: string, i: nat)
    requires Innermost(s.saves, name) == Some(i)
    ensures Engine.Exec(s, RollbackTo(name)) ==
      (s.(state := s.saves[i].state, saves := s.saves[..i + 1], aborted := false), Done)
  {
  }

  /** A name no savepoint goes by is refused, and the transaction with it. */
  lemma MissingSavepoint(s: Session, name: string)
    requires forall i :: 0 <= i < |s.saves| ==> s.saves[i].name != name
    ensures Engine.Exec(s, RollbackTo(name)) == (s.(aborted := true), Raised(NoSuchSavepoint))
    ensures Engine.Exec(s, Release(name)) ==
      (s.(aborted := true), Raised(if s.aborted then InFailedTransaction else NoSuchSavepoint))
  {
  }

  lemma ReleaseSent(s: Session, name: string, i: nat)
    requires Innermost(s.saves, name) == Some(i) && !s.aborted
    ensures Engine.Exec(s, Release(name)) == (s.(saves := s.saves[..i]), Done)
  {
  }

  lemma InnermostIsLast(saves: seq<Save>, name: string, st: State)
    ensures var pushed := saves + [Save(name, st)];
      Innermost(pushed, name) == Some(|saves|) && pushed[..|saves|] == saves && pushed[..|saves| + 1] == pushed
  {
  }

  // ------------------------------------------------------ Open and Once

  /** classifyOpen, with what a second look at the chart adds. */
  function ClassifyOpen(error: SqlError, accounts: seq<Account>, code: string): OpenRefusal {
    match error
    case UniqueViolation => AccountExists(FindAccount(accounts, code))
    case BadText => UnknownKind(ALL_KINDS)
    case CheckFailed(column) => AccountRejected(column)
    case _ => CannotOpen(error)
  }

  lemma AccountSent(s: Session, a: AccountRequest)
    requires Valid(s) && !s.aborted
    ensures
      var r := Engine.Exec(s, InsertAccount(a.code, a.name, a.kind, a.currency));
      var next := Simple.Open(LedgerOf(s), a);
      match OpenVerdict(s.state.tables, a)
      case None => r == (s.(state := s.state.(tables := next.0.tables), supply := next.0.supply), Done)
      case Some(why) =>
        r.0 == s.(supply := next.0.supply, aborted := true) &&
        r.1.Raised? && ClassifyOpen(r.1.error, s.state.tables.accounts, a.code) == why
  {
    if OpenVerdict(s.state.tables, a).None? {
      QuietSettle(s.state.(tables := Simple.Open(LedgerOf(s), a).0.tables));
    }
  }

  /** `later` has `saves` below it, and no savepoint of `Once` above them. */
  ghost predicate Under(saves: seq<Save>, later: seq<Save>) {
    saves <= later && forall i :: |saves| <= i < |later| ==> later[i].name != ONCE_SAVEPOINT
  }

  lemma UnderSelf(saves: seq<Save>)
    ensures Under(saves, saves)
  {
  }

  /** The savepoint a call pushed is the one its own statements reach, whatever the
      calls inside it left above. */
  lemma UnderIsInnermost(saves: seq<Save>, name: string, st: State, later: seq<Save>)
    requires name == ONCE_SAVEPOINT && Under(saves + [Save(name, st)], later)
    ensures Innermost(later, name) == Some(|saves|) && later[|saves|] == Save(name, st)
    ensures later[..|saves|] == saves && later[..|saves| + 1] == saves + [Save(name, st)]
  {
    assert later[|saves|] == (saves + [Save(name, st)])[|saves|];
  }

  predicate LeavesSavepoint(r: OnceReply) {
    r.Turned? && !(r.why.KeyReused? || r.why.StoredWithNoTransaction? || r.why.AlreadyGone?)
  }

  lemma KeySent(s: Session, c: Claim)
    requires Valid(s) && !s.aborted && KeysMustBeSettled !in s.state.immediate
    ensures
      var r := Engine.Exec(s, InsertKey(c.key, c.hash));
      if KeyCheck(c.key, c.hash).Some? then
        r == (s.(aborted := true), Raised(CheckFailed(KeyCheck(c.key, c.hash).value)))
      else if c.key in s.state.tables.keys then r == (s.(aborted := true), Raised(UniqueViolation))
      else r == (s.(state := WriteKey(s.state, c.key, KeyRow(c.hash, None))), Done)
  {
    hide Valid, KeyCheck;
    ValidGives(s);
    QuietSettle(WriteKey(s.state, c.key, KeyRow(c.hash, None)));
  }

  lemma ResultSent(s: Session, c: Claim, id: nat)
    requires Valid(s) && !s.aborted && KeysMustBeSettled !in s.state.immediate
    requires c.key in s.state.tables.keys && s.state.tables.keys[c.key] == KeyRow(c.hash, None)
    ensures
      var r := Engine.Exec(s, RecordResult(c.key, id));
      if FindTransaction(s.state.tables.transactions, id).None? then
        r == (s.(aborted := true), Raised(ForeignKey("transaction_id")))
      else r == (s.(state := WriteKey(s.state, c.key, KeyRow(c.hash, Some(id)))), Done)
  {
    hide Valid;
    ValidGives(s);
    QuietSettle(WriteKey(s.state, c.key, KeyRow(c.hash, Some(id))));
  }

  /** The same statement finds no row of a key that has its result, or that nobody holds. */
  lemma FirstResultStays(s: Session, key: string, id: nat)
    requires Valid(s) && !s.aborted
    requires key in s.state.tables.keys ==> s.state.tables.keys[key].transaction.Some?
    ensures Engine.Exec(s, RecordResult(key, id)) == (s, Done)
  {
    hide Valid;
    ValidGives(s);
    QuietSettle(s.state);
  }

  lemma KeysFired(t: Tables, pending: seq<Event>, before: set<Constraint>)
    requires KeysAccounted(t, pending) && PendingNamed(t, pending)
    requires forall e :: e in pending ==> ConstraintOf(e) !in before
    ensures AllPass(t, pending, before + {KeysMustBeSettled}) <==> KeysSettled(t)
    ensures Answered(pending, before + {KeysMustBeSettled}) == {}
  {
    if AllPass(t, pending, before + {KeysMustBeSettled}) {
      forall k | k in t.keys ensures t.keys[k].transaction.Some? {
        assert KeyWritten(k) in pending ==> Passes(t, KeyWritten(k));
      }
    }
  }

  /** SET CONSTRAINTS idempotency_keys_must_be_settled IMMEDIATE asks of every key the
      transaction wrote, and leaves every other event queued. */
  lemma SettledAsked(s: Session)
    requires Valid(s) && !s.aborted
    ensures
      var r := Engine.Exec(s, SetConstraints({KeysMustBeSettled}, true));
      if KeysSettled(s.state.tables) then
        r.1 == Done && r.0 == s.(state := s.state.(pending := Kept(s.state.pending, {KeysMustBeSettled}),
                                                   immediate := s.state.immediate + {KeysMustBeSettled}))
      else r == (s.(aborted := true), Raised(NotSettled))
  {
    hide WellFormed, Drawable, Accounted, RowPerCheck, Passes, Kept, Fire, AllPass, Answered;
    KeptWidened(s.state.pending, s.state.immediate, {KeysMustBeSettled});
    var immediate := s.state.immediate + {KeysMustBeSettled};
    FireMeans(s.state.tables, s.state.pending, immediate);
    KeysFired(s.state.tables, s.state.pending, s.state.immediate);
    assert s.state.tables.checks - {} == s.state.tables.checks;
  }

  /** No call of a write callback touches the keys. */
  lemma {:induction false} CallsKeepKeys(b: Ledger, calls: seq<Call>, now: int)
    ensures RunCalls(b, calls, now).0.tables.keys == b.tables.keys
  {
    if calls == [] {
    } else {
      CallsKeepKeys(b, calls[..|calls| - 1], now);
    }
  }

  lemma OneKeySettled(before: Tables, after: Tables, key: string)
    requires key in after.keys && after.keys[key].transaction.Some?
    requires forall k :: k in before.keys ==> k in after.keys && (k != key ==> after.keys[k] == before.keys[k])
    requires forall k :: k in after.keys ==> k == key || k in before.keys
    requires key !in before.keys
    ensures KeysSettled(after) == KeysSettled(before)
  {
  }

  // ------------------------------------------------- the queue and the modes of a claim

  /** Whether any `Post` among the calls was accepted. */
  ghost predicate AnyPosted(b: Ledger, calls: seq<Call>, now: int) {
    calls != [] && (
      var n := |calls| - 1;
      AnyPosted(b, calls[..n], now)
      || (calls[n].PostCall? && Simple.Post(RunCalls(b, calls[..n], now).0, calls[n].entry, now).1.Posted?))
  }

  /** What an accepted `Post` does to the queue and the modes, and a refused one does not. */
  ghost predicate BalancesAsked(was: State, st: State, posted: bool) {
    && st.pending == (if posted then Kept(was.pending, BALANCE_CONSTRAINTS) else was.pending)
    && st.immediate == was.immediate - (if posted then BALANCE_CONSTRAINTS else {})
  }

  /** The ledger with the key held. */
  function Reserved(b: Ledger, c: Claim): Ledger { b.(tables := WithKey(b.tables, c.key, KeyRow(c.hash, None))) }

  /** What a fresh record leaves: no key's event queued, its check deferred again, and of
      the balance constraints what the posts under it left. */
  ghost predicate ClaimSettled(was: State, pending: seq<Event>, immediate: set<Constraint>, posted: bool) {
    && pending == Kept(if posted then Kept(was.pending, BALANCE_CONSTRAINTS) else was.pending, {KeysMustBeSettled})
    && immediate == was.immediate - {KeysMustBeSettled} - (if posted then BALANCE_CONSTRAINTS else {})
  }

  lemma {:induction false} KeptTwice(pending: seq<Event>, names: set<Constraint>)
    ensures Kept(Kept(pending, names), names) == Kept(pending, names)
  {
    KeptMembers(pending, names);
    KeptAll(Kept(pending, names), names);
  }

  lemma AskedAgain(was: State, st: State, next: State, posted: bool)
    requires BalancesAsked(was, st, posted)
    requires next.pending == Kept(st.pending, BALANCE_CONSTRAINTS)
    requires next.immediate == st.immediate - BALANCE_CONSTRAINTS
    ensures BalancesAsked(was, next, true)
  {
    KeptTwice(was.pending, BALANCE_CONSTRAINTS);
  }

  lemma KeyAlone(key: string, names: set<Constraint>)
    ensures Kept([KeyWritten(key)], names) == if KeysMustBeSettled in names then [] else [KeyWritten(key)]
  {
    assert [KeyWritten(key)][1..] == [];
  }

  /** The key's own events come and go between the reservation and the settle. */
  lemma KeyPasses(was: State, held: State, worked: State, key: string, posted: bool)
    requires held.pending == was.pending + [KeyWritten(key)] && held.immediate == was.immediate - {KeysMustBeSettled}
    requires BalancesAsked(held, worked, posted)
    ensures ClaimSettled(was, Kept(worked.pending, {KeysMustBeSettled}), worked.immediate, posted)
    ensures KeysMustBeSettled !in worked.immediate
  {
    hide Kept;
    KeyAlone(key, BALANCE_CONSTRAINTS);
    KeyAlone(key, {KeysMustBeSettled});
    KeptConcat(was.pending, [KeyWritten(key)], BALANCE_CONSTRAINTS);
    var kept := if posted then Kept(was.pending, BALANCE_CONSTRAINTS) else was.pending;
    KeptConcat(kept, [KeyWritten(key)], {KeysMustBeSettled});
    assert Kept(kept, {KeysMustBeSettled}) + [] == Kept(kept, {KeysMustBeSettled});
  }

  class Tx {
    var session: Session

    constructor (t: Tables, supply: Supply, now: int)
      requires AtRest(t) && Drawable(t, supply)
      ensures session == Begin(t, supply, now) && Valid(session)
    {
      session := Begin(t, supply, now);
      BeginIsValid(t, supply, now);
    }

    method Exec(q: Stmt) returns (r: Reply)
      requires Valid(session)
      modifies this
      ensures (session, r) == Engine.Exec(old(session), q)
      ensures Valid(session)
    {
      ExecKeeps(session, q);
      var next := Engine.Exec(session, q);
      session, r := next.0, next.1;
    }

    // ---------------------------------------------------------------- Post

    /** A refused entry leaves the transaction as it was, under one more savepoint. */
    method Post(e: Entry) returns (r: PostReply)
      requires Valid(session)
      modifies this
      ensures Valid(session) && session.now == old(session.now)
      ensures old(session.aborted) ==> session == old(session) && r == Refused(Unusable(InFailedTransaction))
      ensures !old(session.aborted) ==>
        !session.aborted && (LedgerOf(session), r) == Simple.Post(LedgerOf(old(session)), e, old(session.now))
      ensures !old(session.aborted) && r.Posted? ==>
        && session.saves == old(session.saves)
        && session.state.pending == Kept(old(session.state.pending), BALANCE_CONSTRAINTS)
        && session.state.immediate == old(session.state.immediate) - BALANCE_CONSTRAINTS
      ensures !old(session.aborted) && r.Refused? ==>
        && session.state == old(session.state)
        && session.saves == old(session.saves) + [Save(POST_SAVEPOINT, old(session.state))]
    {
      hide Valid, FirstFault, LegFault, TransactionCheck, Resolved, BookBalances, Enter;
      var reply := Exec(Savepoint(POST_SAVEPOINT));
      if reply.Raised? {
        return Refused(Unusable(reply.error));
      }
      InnermostIsLast(old(session.saves), POST_SAVEPOINT, old(session.state));
      r := PostBody(e);
      if r.Refused? {
        Verdict(old(session.state.tables), e);
        reply := Exec(RollbackTo(POST_SAVEPOINT));
        r := Explain(r, e);
        return;
      }
      reply := Exec(Release(POST_SAVEPOINT));
    }

    method PostBody(e: Entry) returns (r: PostReply)
      requires Valid(session) && !session.aborted
      modifies this
      ensures Valid(session) && session.now == old(session.now) && session.saves == old(session.saves)
      ensures session.supply == Sent(old(session.supply), Attempted(old(session.state.tables), e))
      ensures match PostVerdict(old(session.state.tables), e)
        case None =>
          && !session.aborted
          && r == Posted(old(session.supply.transaction))
          && Resolved(old(session.state.tables.accounts), e.legs)
          && session.state == Accepted(old(session), e)
        case Some(why) => session.aborted && r == Refused(Unexplained(why))
    {
      hide Valid, BookBalances, Engine.Exec, Accepted, FirstFault, LegFault, TransactionCheck, Resolved;
      ghost var s0 := session;
      var net, legs := NetOf(e);
      RowSent(s0, e);
      Verdict(s0.state.tables, e);
      var reply := Exec(SetConstraints(BALANCE_CONSTRAINTS, false));
      reply := Exec(InsertTransaction(e.currency, e.description, e.occurredAt));
      if reply.Raised? {
        return Refused(Classify(reply.error, net, legs, None));
      }
      var id := reply.id;
      var fault := WriteLegs(id, e, s0);
      if fault.Some? {
        LegClassified(s0.state.tables.accounts, e, fault.value.1, net);
        return Refused(Classify(fault.value.0, net, legs, Some(fault.value.1)));
      }
      SumAsked(s0, e);
      reply := Exec(SetConstraints(BALANCE_CONSTRAINTS, true));
      if reply.Raised? {
        return Refused(Classify(reply.error, net, legs, None));
      }
      reply := Exec(SetConstraints(BALANCE_CONSTRAINTS, false));
      r := Posted(id);
    }

    /** The legs, one statement each, up to the first the server refuses. */
    method WriteLegs(id: nat, e: Entry, ghost s0: Session) returns (fault: Option<(SqlError, nat)>)
      requires Valid(s0) && !s0.aborted && id == s0.supply.transaction
      requires Resolved(s0.state.tables.accounts, e.legs[..0])
      requires Valid(session) && session == InPart(s0, e, 0)
      modifies this
      ensures Valid(session)
      ensures match FirstFault(s0.state.tables.accounts, e, 0)
        case None =>
          && fault.None?
          && Resolved(s0.state.tables.accounts, e.legs[..|e.legs|])
          && session == InPart(s0, e, |e.legs|)
        case Some(i) =>
          && var why := LegFault(s0.state.tables.accounts, e.currency, e.legs[i], i);
          && fault == Some((LegError(why.value), i))
          && session == AbortedWith(s0, Sent(s0.supply, i + 1), session.state)
    {
      hide Valid, Engine.Exec, LegFault, LegError, InPart, FirstFault, Resolved;
      for i := 0 to |e.legs|
        invariant Valid(session)
        invariant FirstFault(s0.state.tables.accounts, e, 0) == FirstFault(s0.state.tables.accounts, e, i)
        invariant Resolved(s0.state.tables.accounts, e.legs[..i])
        invariant session == InPart(s0, e, i)
      {
        FaultAt(s0.state.tables.accounts, e, i);
        LegSent(s0, e, i);
        var reply := Exec(InsertPosting(id, e.legs[i].account, e.legs[i].amount));
        if reply.Raised? {
          return Some((reply.error, i));
        }
      }
      FaultAt(s0.state.tables.accounts, e, |e.legs|);
      fault := None;
    }

    /** A second look at the chart, once the savepoint is back. */
    method Explain(r: PostReply, e: Entry) returns (explained: PostReply)
      requires r.Refused? && (r.why.CurrencyMismatch? ==> r.why.leg < |e.legs|)
      ensures explained == Refused(Explained(session.state.tables.accounts, e, r.why))
    {
      explained := r;
      if r.why.CurrencyMismatch? {
        var held := FindAccount(session.state.tables.accounts, e.legs[r.why.leg].account);
        if held.Some? {
          explained := Refused(CurrencyMismatch(r.why.leg, Some(held.value.currency)));
        }
      }
    }

    // ---------------------------------------------------------------- Open

    /** A refused open leaves nothing behind but its savepoint. */
    method Open(a: AccountRequest) returns (r: OpenReply)
      requires Valid(session)
      modifies this
      ensures Valid(session) && session.now == old(session.now)
      ensures old(session.aborted) ==> session == old(session) && r == NotOpened(CannotOpen(InFailedTransaction))
      ensures !old(session.aborted) ==>
        !session.aborted && (LedgerOf(session), r) == Simple.Open(LedgerOf(old(session)), a)
      ensures !old(session.aborted) && r.Opened? ==>
        session.saves == old(session.saves) && session.state == old(session.state).(tables := session.state.tables)
      ensures !old(session.aborted) && r.NotOpened? ==>
        && session.state == old(session.state)
        && session.saves == old(session.saves) + [Save(OPEN_SAVEPOINT, old(session.state))]
    {
      hide Valid, AccountCheck, KindOf, FindAccount, ClassifyOpen;
      var reply := Exec(Savepoint(OPEN_SAVEPOINT));
      if reply.Raised? {
        return NotOpened(CannotOpen(reply.error));
      }
      InnermostIsLast(old(session.saves), OPEN_SAVEPOINT, old(session.state));
      AccountSent(session, a);
      reply := Exec(InsertAccount(a.code, a.name, a.kind, a.currency));
      if reply.Raised? {
        var error := reply.error;
        reply := Exec(RollbackTo(OPEN_SAVEPOINT));
        return NotOpened(ClassifyOpen(error, session.state.tables.accounts, a.code));
      }
      reply := Exec(Release(OPEN_SAVEPOINT));
      r := Opened;
    }

    // ---------------------------------------------------------------- Once

    /** The write callback: its calls, and what it answers with. */
    method Perform(w: Write) returns (r: Written)
      requires Valid(session) && !session.aborted
      modifies this
      ensures Valid(session) && !session.aborted && session.now == old(session.now)
      ensures var worked := RunCalls(LedgerOf(old(session)), w.calls, old(session.now));
        LedgerOf(session) == worked.0 && r == AnswerOf(w.answer, worked.1)
      ensures BalancesAsked(old(session.state), session.state,
        AnyPosted(LedgerOf(old(session)), w.calls, old(session.now)))
      ensures Under(old(session.saves), session.saves)
    {
      hide Valid, Simple.Post, Simple.Open, Kept;
      ghost var s0 := session;
      var last: Option<PostReply> := None;
      for i := 0 to |w.calls|
        invariant Valid(session) && !session.aborted && session.now == s0.now
        invariant (LedgerOf(session), last) == RunCalls(LedgerOf(s0), w.calls[..i], s0.now)
        invariant BalancesAsked(s0.state, session.state, AnyPosted(LedgerOf(s0), w.calls[..i], s0.now))
        invariant Under(s0.saves, session.saves)
      {
        assert w.calls[..i + 1][..i] == w.calls[..i];
        ghost var before := session.state;
        match w.calls[i]
        case OpenCall(a) =>
          var _ := Open(a);
        case PostCall(e) =>
          var posted := Post(e);
          last := Some(posted);
          if posted.Posted? {
            AskedAgain(s0.state, before, session.state, AnyPosted(LedgerOf(s0), w.calls[..i], s0.now));
          }
      }
      assert w.calls[..|w.calls|] == w.calls;
      r := AnswerOf(w.answer, last);
    }

    /** Runs the callback under the claim, at most once ever. */
    method Once(c: Claim, w: Write) returns (r: OnceReply)
      requires Valid(session)
      modifies this
      ensures Valid(session) && session.now == old(session.now)
      ensures old(session.aborted) ==> session == old(session) && r == Turned(CannotClaim(InFailedTransaction))
      ensures !old(session.aborted) ==>
        !session.aborted && (LedgerOf(session), r) == Simple.Once(LedgerOf(old(session)), c, w, old(session.now))
      ensures !old(session.aborted) ==>
        session.saves == old(session.saves) +
          if LeavesSavepoint(r) then [Save(ONCE_SAVEPOINT, old(session.state))] else []
      ensures !old(session.aborted) && (r.Recorded? ==> r.record.replayed) ==> session.state == old(session.state)
      ensures !old(session.aborted) && r.Recorded? && !r.record.replayed ==>
        ClaimSettled(old(session.state), session.state.pending, session.state.immediate,
                     AnyPosted(Reserved(LedgerOf(old(session)), c), w.calls, old(session.now)))
    {
      hide Valid, KeyCheck, Innermost, Under, RunCalls, AnswerOf, FindTransaction, KeysSettled, Engine.Exec, AnyPosted,
           BalancesAsked, ClaimSettled;
      ghost var s0 := session;
      ghost var n := |s0.saves|;
      SavepointSent(session, ONCE_SAVEPOINT);
      var reply := Exec(Savepoint(ONCE_SAVEPOINT));
      if reply.Raised? {
        return Turned(CannotClaim(reply.error));
      }
      InnermostIsLast(s0.saves, ONCE_SAVEPOINT, s0.state);
      UnderSelf(session.saves);
      reply := Reserve(c);
      if reply.Raised? {
        var error := reply.error;
        RollbackSent(session, ONCE_SAVEPOINT, n);
        reply := Exec(RollbackTo(ONCE_SAVEPOINT));
        if error == UniqueViolation {
          r := ReadBack(c);
          ReleaseSent(session, ONCE_SAVEPOINT, n);
          reply := Exec(Release(ONCE_SAVEPOINT));
          return;
        }
        return Turned(if error.CheckFailed? then BadKey(error.column) else CannotClaim(error));
      }
      CallsKeepKeys(LedgerOf(session), w.calls, s0.now);
      ghost var held := session;
      var written := Perform(w);
      KeyPasses(s0.state, held.state, session.state, c.key, AnyPosted(LedgerOf(held), w.calls, s0.now));
      UnderIsInnermost(s0.saves, ONCE_SAVEPOINT, s0.state, session.saves);
      RollbackSent(session, ONCE_SAVEPOINT, n);
      if written.Failed? {
        reply := Exec(RollbackTo(ONCE_SAVEPOINT));
        return Turned(WriteFailed(written.last));
      }
      var why := SettleKey(c, written.id, s0.state.tables);
      if why.Some? {
        RollbackSent(session, ONCE_SAVEPOINT, n);
        reply := Exec(RollbackTo(ONCE_SAVEPOINT));
        return Turned(why.value);
      }
      ReleaseSent(session, ONCE_SAVEPOINT, n);
      reply := Exec(Release(ONCE_SAVEPOINT));
      r := Recorded(Record(c.key, written.id, false));
    }

    /** The reservation: a duplicate is refused by the primary key. */
    method Reserve(c: Claim) returns (r: Reply)
      requires Valid(session) && !session.aborted
      modifies this
      ensures Valid(session)
      ensures if KeyCheck(c.key, c.hash).Some? then
          r == Raised(CheckFailed(KeyCheck(c.key, c.hash).value)) && session.aborted
        else if c.key in old(session.state.tables.keys) then r == Raised(UniqueViolation) && session.aborted
        else
          && r == Done && !session.aborted
          && var deferred := old(session.state.immediate) - {KeysMustBeSettled};
             session.state == WriteKey(old(session.state).(immediate := deferred), c.key, KeyRow(c.hash, None))
      ensures session == old(session).(state := session.state, aborted := session.aborted)
    {
      hide Valid, KeyCheck, Engine.Exec;
      ConstraintsSent(session, {KeysMustBeSettled}, false);
      r := Exec(SetConstraints({KeysMustBeSettled}, false));
      KeySent(session, c);
      r := Exec(InsertKey(c.key, c.hash));
    }

    /** Records the result under the key and asks, now, whether every key is settled. */
    method SettleKey(c: Claim, id: nat, ghost before: Tables) returns (why: Option<OnceRefusal>)
      requires Valid(session) && !session.aborted && KeysMustBeSettled !in session.state.immediate
      requires c.key !in before.keys && session.state.tables.keys == before.keys[c.key := KeyRow(c.hash, None)]
      modifies this
      ensures Valid(session)
      ensures session == old(session).(state := session.state, aborted := session.aborted)
      ensures why == if FindTransaction(old(session.state.tables.transactions), id).None? then Some(NotRecorded)
                     else if !KeysSettled(before) then Some(OthersUnsettled)
                     else None
      ensures session.aborted == why.Some?
      ensures why.None? ==>
        session.state == State(WithKey(old(session.state.tables), c.key, KeyRow(c.hash, Some(id))),
                               Kept(old(session.state.pending), {KeysMustBeSettled}), old(session.state.immediate))
    {
      hide Valid, KeysSettled, FindTransaction, Engine.Exec, Kept;
      KeyAlone(c.key, {KeysMustBeSettled});
      KeptConcat(session.state.pending, [KeyWritten(c.key)], {KeysMustBeSettled});
      assert Kept(session.state.pending, {KeysMustBeSettled}) + [] == Kept(session.state.pending, {KeysMustBeSettled});
      ResultSent(session, c, id);
      var reply := Exec(RecordResult(c.key, id));
      if reply.Raised? {
        return Some(NotRecorded);
      }
      SettledAsked(session);
      OneKeySettled(before, session.state.tables, c.key);
      reply := Exec(SetConstraints({KeysMustBeSettled}, true));
      if reply.Raised? {
        return Some(OthersUnsettled);
      }
      ConstraintsSent(session, {KeysMustBeSettled}, false);
      reply := Exec(SetConstraints({KeysMustBeSettled}, false));
      why := None;
    }

    /** replay: what the key already holds. */
    method ReadBack(c: Claim) returns (r: OnceReply)
      ensures r == Replay(session.state.tables, c)
    {
      if c.key !in session.state.tables.keys {
        return Turned(AlreadyGone);
      }
      var row := session.state.tables.keys[c.key];
      if row.hash != c.hash {
        return Turned(KeyReused);
      }
      if row.transaction.None? {
        return Turned(StoredWithNoTransaction);
      }
      return Recorded(Record(c.key, row.transaction.value, true));
    }
  }
}
