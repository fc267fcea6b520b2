/** One Postgres transaction over the ledger schema: its tables, the deferred trigger
    events it has queued, the mode of each deferrable constraint, and its savepoints.
    Every statement is a function from one session to the next. */
module Engine {
  import opened Text
  import opened Book

  // ---------------------------------------------------------------- state

  /** The three constraint triggers declared DEFERRABLE INITIALLY DEFERRED. */
  datatype Constraint = TransactionsMustBalance | BalanceChecksMustBalance | KeysMustBeSettled

  /** A queued firing of one of them, by the row it will fire on. */
  datatype Event = TransactionWritten(id: nat) | CheckQueued(id: nat) | KeyWritten(key: string)

  function ConstraintOf(e: Event): Constraint {
    match e
    case TransactionWritten(_) => TransactionsMustBalance
    case CheckQueued(_) => BalanceChecksMustBalance
    case KeyWritten(_) => KeysMustBeSettled
  }

  const BALANCE_CONSTRAINTS: set<Constraint> := {TransactionsMustBalance, BalanceChecksMustBalance}
  const ALL_CONSTRAINTS: set<Constraint> := BALANCE_CONSTRAINTS + {KeysMustBeSettled}

  /** What a savepoint saves and a rollback to it restores, all three together. */
  datatype State = State(tables: Tables, pending: seq<Event>, immediate: set<Constraint>)

  datatype Save = Save(name: string, state: State)

  /** Default values: uuids and the identity column. Never given back by a rollback. */
  datatype Supply = Supply(account: nat, transaction: nat, posting: nat)

  datatype Session = Session(state: State, saves: seq<Save>, aborted: bool, supply: Supply, now: int)

  datatype SqlError =
    | InFailedTransaction            // 25P02
    | NoSuchSavepoint                // 3B001
    | NotNull(column: string)        // 23502
    | CheckFailed(column: string)    // 23514
    | ForeignKey(columns: string)    // 23503
    | UniqueViolation                // 23505
    | BadText                        // 22P02
    | DoesNotBalance                 // LB001
    | AppendOnly                     // LB002
    | NotSettled                     // LB003
    | AlreadySettled                 // LB004

  datatype Outcome = Ok(state: State) | Err(error: SqlError)

  datatype Reply = Done | Inserted(id: nat) | Raised(error: SqlError)

  // ------------------------------------------------------------- triggers

  /** Whether a firing of the trigger function finds nothing to raise. */
  predicate Passes(t: Tables, e: Event) {
    match e
    case TransactionWritten(id) => Balances(t.postings, id)
    case CheckQueued(id) => Balances(t.postings, id)
    case KeyWritten(key) => key !in t.keys || t.keys[key].transaction.Some?
  }

  function RaisedBy(e: Event): SqlError {
    if e.KeyWritten? then NotSettled else DoesNotBalance
  }

  /** queued_balance_check deletes the row it fired on. */
  function Fired(t: Tables, e: Event): Tables {
    if e.CheckQueued? then t.(checks := t.checks - {e.id}) else t
  }

  /** Fires, in queue order, every pending event of an immediate constraint. */
  function Fire(t: Tables, pending: seq<Event>, immediate: set<Constraint>): Outcome
    decreases |pending|
  {
    if pending == [] then Ok(State(t, [], immediate))
    else if ConstraintOf(pending[0]) !in immediate then
      match Fire(t, pending[1..], immediate)
      case Err(error) => Err(error)
      case Ok(st) => Ok(st.(pending := [pending[0]] + st.pending))
    else if Passes(t, pending[0]) then Fire(Fired(t, pending[0]), pending[1..], immediate)
    else Err(RaisedBy(pending[0]))
  }

  /** What the end of a statement does to the events it queued. */
  function Settle(st: State): Outcome { Fire(st.tables, st.pending, st.immediate) }

  /** queue_a_balance_check: INSERT ... ON CONFLICT DO NOTHING, with the deferred
      check hung off the row it inserts. */
  function QueueCheck(st: State, id: nat): State {
    if id in st.tables.checks then st
    else st.(tables := st.tables.(checks := st.tables.checks + {id}),
             pending := st.pending + [CheckQueued(id)])
  }

  // ----------------------------------------------------------- statements

  datatype Stmt =
    | Savepoint(name: string)
    | RollbackTo(name: string)
    | Release(name: string)
    | SetConstraints(names: set<Constraint>, immediately: bool)
    | InsertAccount(code: string, name: string, kind: string, currency: string)
    | InsertTransaction(currency: string, description: string, occurredAt: Option<int>)
    | InsertPosting(transaction: nat, code: string, amount: Amount)
    | MutatePosting(id: nat)                  // UPDATE or DELETE, as is the next
    | MutateTransaction(id: nat)
    | Truncate                                // of postings or of transactions
    | InsertKey(key: string, hash: Digest)
    | RecordResult(key: string, transaction: nat)
    | UpdateKey(key: string, hash: Digest, result: Option<nat>)

  function KindOf(s: string): Option<Kind> {
    if s == "asset" then Some(Asset)
    else if s == "liability" then Some(Liability)
    else if s == "equity" then Some(Equity)
    else if s == "revenue" then Some(Revenue)
    else if s == "expense" then Some(Expense)
    else None
  }

  /** The CHECK a new account breaks, in the order Postgres asks them: by constraint name. */
  function AccountCheck(code: string, name: string, currency: string): Option<string> {
    if !CodeShape(code) then Some("code")
    else if !CurrencyShape(currency) then Some("currency")
    else if !NameShape(name) then Some("name")
    else None
  }

  function TransactionCheck(currency: string, description: string): Option<string> {
    if !CurrencyShape(currency) then Some("currency")
    else if !DescriptionShape(description) then Some("description")
    else None
  }

  function KeyCheck(key: string, hash: Digest): Option<string> {
    if !KeyShape(key) then Some("key")
    else if |hash| != 32 then Some("request_hash")
    else None
  }

  function ExecAccount(st: State, id: nat, q: Stmt): Outcome
    requires q.InsertAccount?
  {
    var kind := KindOf(q.kind);
    var check := AccountCheck(q.code, q.name, q.currency);
    if kind.None? then Err(BadText)
    else if check.Some? then Err(CheckFailed(check.value))
    else if FindAccount(st.tables.accounts, q.code).Some? then Err(UniqueViolation)
    else
      var row := Account(id, q.code, q.name, kind.value, q.currency);
      Settle(st.(tables := st.tables.(accounts := st.tables.accounts + [row])))
  }

  function ExecTransaction(st: State, id: nat, now: int, q: Stmt): Outcome
    requires q.InsertTransaction?
  {
    var check := TransactionCheck(q.currency, q.description);
    if check.Some? then Err(CheckFailed(check.value))
    else
      var occurredAt := if q.occurredAt.Some? then q.occurredAt.value else now;
      var row := Transaction(id, q.currency, q.description, occurredAt);
      Settle(st.(tables := st.tables.(transactions := st.tables.transactions + [row]),
                 pending := st.pending + [TransactionWritten(id)]))
  }

  /** NOT NULL, then CHECK, then the foreign keys at the end of the statement. */
  function ExecPosting(st: State, id: nat, q: Stmt): Outcome
    requires q.InsertPosting?
  {
    var account := FindAccount(st.tables.accounts, q.code);
    if account.None? then Err(NotNull("account_id"))
    else if q.amount == 0 then Err(CheckFailed("amount_minor"))
    else if !NamesTransaction(st.tables.transactions, q.transaction, account.value.currency) then
      Err(ForeignKey("transaction_id_currency"))
    else
      var row := Posting(id, q.transaction, account.value.id, account.value.currency, q.amount);
      Settle(QueueCheck(st.(tables := st.tables.(postings := st.tables.postings + [row])), q.transaction))
  }

  function ExecKey(st: State, q: Stmt): Outcome
    requires q.InsertKey?
  {
    var check := KeyCheck(q.key, q.hash);
    if check.Some? then Err(CheckFailed(check.value))
    else if q.key in st.tables.keys then Err(UniqueViolation)
    else Settle(WriteKey(st, q.key, KeyRow(q.hash, None)))
  }

  /** AFTER INSERT OR UPDATE ON idempotency_keys. */
  function WriteKey(st: State, key: string, row: KeyRow): State {
    st.(tables := st.tables.(keys := st.tables.keys[key := row]), pending := st.pending + [KeyWritten(key)])
  }

  /** Any UPDATE of one key: idempotency_record_is_final, then the foreign key. */
  function ExecUpdateKey(st: State, q: Stmt): Outcome
    requires q.UpdateKey?
  {
    if q.key !in st.tables.keys then Settle(st)
    else if st.tables.keys[q.key].transaction.Some? || q.hash != st.tables.keys[q.key].hash then Err(AlreadySettled)
    else if q.result.Some? && FindTransaction(st.tables.transactions, q.result.value).None? then
      Err(ForeignKey("transaction_id"))
    else Settle(WriteKey(st, q.key, KeyRow(q.hash, q.result)))
  }

  /** The UPDATE `Once` sends: ... WHERE key = $1 AND transaction_id IS NULL. */
  function ExecRecord(st: State, q: Stmt): Outcome
    requires q.RecordResult?
  {
    if q.key in st.tables.keys && st.tables.keys[q.key].transaction.None? then
      ExecUpdateKey(st, UpdateKey(q.key, st.tables.keys[q.key].hash, Some(q.transaction)))
    else Settle(st)
  }

  function ExecConstraints(st: State, names: set<Constraint>, immediately: bool): Outcome {
    if immediately then Settle(st.(immediate := st.immediate + names))
    else Ok(st.(immediate := st.immediate - names))
  }

  /** The innermost savepoint of a name: a second one of the name hides the first. */
  function Innermost(saves: seq<Save>, name: string): (r: Option<nat>)
    ensures r.Some? ==> r.value < |saves| && saves[r.value].name == name
    ensures r.Some? ==> forall i :: r.value < i < |saves| ==> saves[i].name != name
    ensures r.None? <==> forall i :: 0 <= i < |saves| ==> saves[i].name != name
  {
    if saves == [] then None
    else if saves[|saves| - 1].name == name then Some(|saves| - 1)
    else Innermost(saves[..|saves| - 1], name)
  }

  function ExecOutcome(s: Session, q: Stmt): Outcome
    requires !(q.Savepoint? || q.RollbackTo? || q.Release?)
  {
    match q
    case SetConstraints(names, immediately) => ExecConstraints(s.state, names, immediately)
    case InsertAccount(_, _, _, _) => ExecAccount(s.state, s.supply.account, q)
    case InsertTransaction(_, _, _) => ExecTransaction(s.state, s.supply.transaction, s.now, q)
    case InsertPosting(_, _, _) => ExecPosting(s.state, s.supply.posting, q)
    case MutatePosting(id) =>
      if exists p | p in s.state.tables.postings :: p.id == id then Err(AppendOnly) else Settle(s.state)
    case MutateTransaction(id) =>
      if FindTransaction(s.state.tables.transactions, id).Some? then Err(AppendOnly) else Settle(s.state)
    case Truncate => Err(AppendOnly)
    case InsertKey(_, _) => ExecKey(s.state, q)
    case RecordResult(_, _) => ExecRecord(s.state, q)
    case UpdateKey(_, _, _) => ExecUpdateKey(s.state, q)
  }

  /** The defaults one INSERT draws, whether or not it then succeeds. */
  function Drawn(supply: Supply, q: Stmt): Supply {
    match q
    case InsertAccount(_, _, _, _) => supply.(account := supply.account + 1)
    case InsertTransaction(_, _, _) => supply.(transaction := supply.transaction + 1)
    case InsertPosting(_, _, _) => supply.(posting := supply.posting + 1)
    case _ => supply
  }

  function Abort(s: Session, error: SqlError): (Session, Reply) {
    (s.(aborted := true), Raised(error))
  }

  /** One statement. A raised error leaves the transaction aborted, and an aborted
      transaction takes nothing but ROLLBACK TO. */
  function Exec(s: Session, q: Stmt): (Session, Reply) {
    if q.RollbackTo? then
      match Innermost(s.saves, q.name)
      case None => Abort(s, NoSuchSavepoint)
      case Some(i) => (s.(state := s.saves[i].state, saves := s.saves[..i + 1], aborted := false), Done)
    else if s.aborted then Abort(s, InFailedTransaction)
    else if q.Savepoint? then (s.(saves := s.saves + [Save(q.name, s.state)]), Done)
    else if q.Release? then
      match Innermost(s.saves, q.name)
      case None => Abort(s, NoSuchSavepoint)
      case Some(i) => (s.(saves := s.saves[..i]), Done)
    else
      var drawn := s.(supply := Drawn(s.supply, q));
      match ExecOutcome(s, q)
      case Err(error) => Abort(drawn, error)
      case Ok(st) => (drawn.(state := st), if q.InsertTransaction? then Inserted(s.supply.transaction) else Done)
  }

  function Run(s: Session, qs: seq<Stmt>): Session {
    if qs == [] then s else Exec(Run(s, qs[..|qs| - 1]), qs[|qs| - 1]).0
  }

  function Begin(t: Tables, supply: Supply, now: int): Session {
    Session(State(t, [], {}), [], false, supply, now)
  }

  /** COMMIT fires everything still queued; a refusal there rolls the transaction back. */
  function Commit(s: Session): Outcome {
    if s.aborted then Err(InFailedTransaction)
    else Fire(s.state.tables, s.state.pending, ALL_CONSTRAINTS)
  }
}
