/** What `Open`, `Post` and `Once` mean: each is a verdict on the tables as they stand
    and, where it is accepted, one change to them. There are no savepoints here, no
    queued events, no constraint modes and nothing to undo. */
module Simple {
  import opened Text
  import opened Book
  import opened Engine

  // --------------------------------------------------------------- values

  datatype Leg = Leg(account: string, amount: Amount)

  datatype Entry = Entry(currency: string, description: string, legs: seq<Leg>, occurredAt: Option<int>)

  datatype AccountRequest = AccountRequest(code: string, name: string, kind: string, currency: string)

  datatype Claim = Claim(key: string, hash: Digest)

  datatype Record = Record(key: string, transaction: nat, replayed: bool)

  datatype Refusal =
    | Unbalanced(net: int, postings: nat)
    | UnknownAccount(leg: nat)
    | CurrencyMismatch(leg: nat, holds: Option<string>)
    | LegRejected(leg: nat)
    | Rejected(column: string)
    | Unusable(error: SqlError)

  datatype PostReply = Posted(id: nat) | Refused(why: Refusal)

  datatype OpenRefusal =
    | AccountExists(holder: Option<Account>)
    | UnknownKind(valid: seq<Kind>)
    | AccountRejected(column: string)
    | CannotOpen(error: SqlError)

  datatype OpenReply = Opened | NotOpened(why: OpenRefusal)

  /** A call a write callback may make, and what it answers `Once` with: the id of its
      last `Post`, an id of its own choosing, or an error. */
  datatype Call = OpenCall(account: AccountRequest) | PostCall(entry: Entry)

  datatype Answer = LastPost | Named(id: nat) | GiveUp

  datatype Write = Write(calls: seq<Call>, answer: Answer)

  datatype Written = Wrote(id: nat) | Failed(last: Option<PostReply>)

  datatype OnceRefusal =
    | KeyReused
    | BadKey(column: string)
    | WriteFailed(last: Option<PostReply>)
    | NotRecorded
    | OthersUnsettled
    | StoredWithNoTransaction
    | AlreadyGone
    | CannotClaim(error: SqlError)

  datatype OnceReply = Recorded(record: Record) | Turned(why: OnceRefusal)

  /** The tables, and the defaults not yet drawn. */
  datatype Ledger = Ledger(tables: Tables, supply: Supply)

  // ----------------------------------------------------------------- Post

  /** What the legs sum to. */
  function Sum(legs: seq<Leg>): int {
    if legs == [] then 0 else Sum(legs[..|legs| - 1]) + legs[|legs| - 1].amount as int
  }

  /** The rule a single leg breaks: an account nobody holds, then a zero, then the wrong currency. */
  function LegFault(accounts: seq<Account>, currency: string, leg: Leg, index: nat): Option<Refusal> {
    var account := FindAccount(accounts, leg.account);
    if account.None? then Some(UnknownAccount(index))
    else if leg.amount == 0 then Some(LegRejected(index))
    else if account.value.currency != currency then Some(CurrencyMismatch(index, Some(account.value.currency)))
    else None
  }

  /** The first leg at or past `from` that breaks a rule. */
  function FirstFault(accounts: seq<Account>, e: Entry, from: nat): (r: Option<nat>)
    requires from <= |e.legs|
    ensures r.Some? ==> from <= r.value < |e.legs| && LegFault(accounts, e.currency, e.legs[r.value], r.value).Some?
    ensures forall i :: from <= i < (if r.Some? then r.value else |e.legs|) ==>
      LegFault(accounts, e.currency, e.legs[i], i).None?
    decreases |e.legs| - from
  {
    if from == |e.legs| then None
    else if LegFault(accounts, e.currency, e.legs[from], from).Some? then Some(from)
    else FirstFault(accounts, e, from + 1)
  }

  predicate BookBalances(t: Tables) {
    forall x | x in t.transactions :: Balances(t.postings, x.id)
  }

  /** The entry's own row first, then its legs in order, then the sum. The last rule is
      asked of every entry the transaction still owes a check, not of this one alone. */
  function PostVerdict(t: Tables, e: Entry): Option<Refusal> {
    var row := TransactionCheck(e.currency, e.description);
    var fault := FirstFault(t.accounts, e, 0);
    if row.Some? then Some(Rejected(row.value))
    else if fault.Some? then LegFault(t.accounts, e.currency, e.legs[fault.value], fault.value)
    else if e.legs == [] || Sum(e.legs) != 0 || !BookBalances(t) then Some(Unbalanced(Sum(e.legs), |e.legs|))
    else None
  }

  function LegRow(accounts: seq<Account>, id: nat, posting: nat, leg: Leg): Posting
    requires FindAccount(accounts, leg.account).Some?
  {
    var account := FindAccount(accounts, leg.account).value;
    Posting(posting, id, account.id, account.currency, leg.amount)
  }

  ghost predicate Resolved(accounts: seq<Account>, legs: seq<Leg>) {
    forall i :: 0 <= i < |legs| ==> FindAccount(accounts, legs[i].account).Some?
  }

  ghost function LegRows(accounts: seq<Account>, id: nat, first: nat, legs: seq<Leg>): (r: seq<Posting>)
    requires Resolved(accounts, legs)
    ensures |r| == |legs|
    ensures forall i :: 0 <= i < |legs| ==> r[i] == LegRow(accounts, id, first + i, legs[i])
  {
    if legs == [] then []
    else
      var n := |legs| - 1;
      assert Resolved(accounts, legs[..n]);
      LegRows(accounts, id, first, legs[..n]) + [LegRow(accounts, id, first + n, legs[n])]
  }

  function Header(e: Entry, id: nat, now: int): Transaction {
    Transaction(id, e.currency, e.description, if e.occurredAt.Some? then e.occurredAt.value else now)
  }

  /** The tables with the entry in them, and no check left queued. */
  ghost function Enter(t: Tables, e: Entry, id: nat, first: nat, now: int): Tables
    requires Resolved(t.accounts, e.legs)
  {
    t.(transactions := t.transactions + [Header(e, id, now)],
       postings := t.postings + LegRows(t.accounts, id, first, e.legs),
       checks := {})
  }

  /** How many legs were sent: all of them, or up to and with the one refused. */
  function Attempted(t: Tables, e: Entry): nat {
    var fault := FirstFault(t.accounts, e, 0);
    if TransactionCheck(e.currency, e.description).Some? then 0
    else if fault.Some? then fault.value + 1
    else |e.legs|
  }

  ghost function Post(b: Ledger, e: Entry, now: int): (Ledger, PostReply) {
    var id := b.supply.transaction;
    var drawn := b.supply.(transaction := id + 1, posting := b.supply.posting + Attempted(b.tables, e));
    var why := PostVerdict(b.tables, e);
    if why.Some? then (b.(supply := drawn), Refused(why.value))
    else (Ledger(Enter(b.tables, e, id, b.supply.posting, now), drawn), Posted(id))
  }

  // ----------------------------------------------------------------- Open

  const ALL_KINDS: seq<Kind> := [Asset, Liability, Equity, Revenue, Expense]

  function OpenVerdict(t: Tables, a: AccountRequest): Option<OpenRefusal> {
    var check := AccountCheck(a.code, a.name, a.currency);
    if KindOf(a.kind).None? then Some(UnknownKind(ALL_KINDS))
    else if check.Some? then Some(AccountRejected(check.value))
    else if FindAccount(t.accounts, a.code).Some? then Some(AccountExists(FindAccount(t.accounts, a.code)))
    else None
  }

  function Open(b: Ledger, a: AccountRequest): (Ledger, OpenReply) {
    var id := b.supply.account;
    var drawn := b.supply.(account := id + 1);
    var why := OpenVerdict(b.tables, a);
    if why.Some? then (b.(supply := drawn), NotOpened(why.value))
    else
      assert KindOf(a.kind).Some?;
      var row := Account(id, a.code, a.name, KindOf(a.kind).value, a.currency);
      (Ledger(b.tables.(accounts := b.tables.accounts + [row]), drawn), Opened)
  }

  // ----------------------------------------------------------------- Once

  /** The calls of a write callback, in order, each taking what the last one left. The
      reply kept is that of the last `Post`, whatever was opened after it. */
  ghost function RunCalls(b: Ledger, calls: seq<Call>, now: int): (Ledger, Option<PostReply>) {
    if calls == [] then (b, None)
    else
      var (before, last) := RunCalls(b, calls[..|calls| - 1], now);
      match calls[|calls| - 1]
      case OpenCall(a) => (Open(before, a).0, last)
      case PostCall(e) => var r := Post(before, e, now); (r.0, Some(r.1))
  }

  function AnswerOf(answer: Answer, last: Option<PostReply>): Written {
    match answer
    case Named(id) => Wrote(id)
    case GiveUp => Failed(last)
    case LastPost => if last.Some? && last.value.Posted? then Wrote(last.value.id) else Failed(last)
  }

  predicate KeysSettled(t: Tables) {
    forall k | k in t.keys :: t.keys[k].transaction.Some?
  }

  /** What a taken key answers: the first result, to the same request and to no other. */
  function Replay(t: Tables, c: Claim): OnceReply {
    if c.key !in t.keys then Turned(AlreadyGone)
    else if t.keys[c.key].hash != c.hash then Turned(KeyReused)
    else if t.keys[c.key].transaction.None? then Turned(StoredWithNoTransaction)
    else Recorded(Record(c.key, t.keys[c.key].transaction.value, true))
  }

  function WithKey(t: Tables, key: string, row: KeyRow): Tables { t.(keys := t.keys[key := row]) }

  ghost function Once(b: Ledger, c: Claim, w: Write, now: int): (Ledger, OnceReply) {
    var check := KeyCheck(c.key, c.hash);
    if check.Some? then (b, Turned(BadKey(check.value)))
    else if c.key in b.tables.keys then (b, Replay(b.tables, c))
    else
      var reserved := b.(tables := WithKey(b.tables, c.key, KeyRow(c.hash, None)));
      var (worked, last) := RunCalls(reserved, w.calls, now);
      var undone := b.(supply := worked.supply);
      match AnswerOf(w.answer, last)
      case Failed(reply) => (undone, Turned(WriteFailed(reply)))
      case Wrote(id) =>
        if FindTransaction(worked.tables.transactions, id).None? then (undone, Turned(NotRecorded))
        else if !KeysSettled(b.tables) then (undone, Turned(OthersUnsettled))
        else
          (worked.(tables := WithKey(worked.tables, c.key, KeyRow(c.hash, Some(id)))),
           Recorded(Record(c.key, id, false)))
  }
}
