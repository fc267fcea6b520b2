/** POST /v1/transactions, request after request against one ledger: a write transaction
    that is committed or rolled back, and the answer that goes with it. */
module Server {
  import opened Text
  import opened Book
  import opened Engine
  import opened Invariant
  import opened Simple
  import LedgerCalls
  import Reads
  import Calls
  import PostProof
  import Totals

  const MAX_POSTINGS := 1000

  /** Requests as they were decoded, and what becomes of their COMMIT. */
  datatype PostRequest = PostRequest(key: string, hash: Digest, entry: Entry, now: int, fate: Fate)

  datatype Request = Posts(post: PostRequest) | Opens(account: AccountRequest, now: int, fate: Fate)

  datatype Fate = Acknowledged | Unacknowledged | NeverCommitted

  datatype Body = Body(id: nat, currency: string, description: string, legs: seq<Leg>)

  datatype Answer =
    | NoKey
    | TooManyPostings(n: nat)
    | Refused(why: OnceRefusal)
    | NotFound
    | Created(body: Body, replayed: bool)
    | NotOpened(refusal: OpenRefusal)
    | Opened(balance: Totals.Balance)
    | NoAnswer

  function BodyOf(id: nat, e: Entry): Body { Body(id, e.currency, e.description, e.legs) }

  function TheWrite(e: Entry): Write { Write([PostCall(e)], LastPost) }

  /** What one post does to the ledger, and what it is answered. Whatever is not committed
      still uses up the defaults it drew. */
  ghost function ServedPost(b: Ledger, q: PostRequest): (Ledger, Answer) {
    if q.key == "" then (b, NoKey)
    else if |q.entry.legs| > MAX_POSTINGS then (b, TooManyPostings(|q.entry.legs|))
    else
      var (after, r) := Simple.Once(b, Claim(q.key, q.hash), TheWrite(q.entry), q.now);
      var undone := b.(supply := after.supply);
      match r
      case Turned(why) => (undone, Answer.Refused(why))
      case Recorded(record) =>
        var stored := Reads.EntryHeld(after.tables, record.transaction);
        if record.replayed && stored.None? then (undone, NotFound)
        else
          match q.fate
          case NeverCommitted => (undone, NoAnswer)
          case Unacknowledged => (after, NoAnswer)
          case Acknowledged =>
            (after, Created(BodyOf(record.transaction, if record.replayed then stored.value else q.entry),
              record.replayed))
  }

  /** The same of one account opened: the answer is the account's balance, read back. */
  ghost function ServedOpen(b: Ledger, a: AccountRequest, fate: Fate): (Ledger, Answer) {
    var (after, r) := Simple.Open(b, a);
    var undone := b.(supply := after.supply);
    var balance := Totals.BalanceOf(after.tables, a.code);
    match r
    case NotOpened(why) => (undone, Answer.NotOpened(why))
    case Opened =>
      if balance.None? then (undone, NotFound)
      else
        match fate
        case NeverCommitted => (undone, NoAnswer)
        case Unacknowledged => (after, NoAnswer)
        case Acknowledged => (after, Answer.Opened(balance.value))
  }

  ghost function Served(b: Ledger, q: Request): (Ledger, Answer) {
    match q
    case Posts(post) => ServedPost(b, post)
    case Opens(account, _, fate) => ServedOpen(b, account, fate)
  }

  // ------------------------------------------------------------- every commit is taken

  lemma OneCall(b: Ledger, e: Entry, now: int)
    ensures RunCalls(b, [PostCall(e)], now) == (Simple.Post(b, e, now).0, Some(Simple.Post(b, e, now).1))
  {
    hide Simple.Post;
    assert [PostCall(e)][..0] == [];
    assert RunCalls(b, [], now) == (b, None);
  }

  lemma PostedBalances(b: Ledger, e: Entry, now: int)
    requires WellFormed(b.tables) && Drawable(b.tables, b.supply) && Simple.Post(b, e, now).1.Posted?
    ensures BookBalances(Simple.Post(b, e, now).0.tables)
  {
    LedgerCalls.Verdict(b.tables, e);
    EnteredBalances(b, e, now);
  }

  lemma EnteredBalances(b: Ledger, e: Entry, now: int)
    requires WellFormed(b.tables) && Drawable(b.tables, b.supply) && Resolved(b.tables.accounts, e.legs)
    requires PostVerdict(b.tables, e).None?
    ensures BookBalances(Enter(b.tables, e, b.supply.transaction, b.supply.posting, now))
  {
    PostProof.EnteredBalances(b.tables, e, b.supply.transaction, b.supply.posting, now);
  }

  lemma ReservedIsWellFormed(b: Ledger, c: Claim)
    requires AtRest(b.tables) && Drawable(b.tables, b.supply)
    ensures var reserved := WithKey(b.tables, c.key, KeyRow(c.hash, None));
      WellFormed(reserved) && Drawable(reserved, b.supply)
  {
    var reserved := WithKey(b.tables, c.key, KeyRow(c.hash, None));
    assert forall p :: p in b.tables.postings ==> PostingHeld(b.tables, p) && PostingHeld(reserved, p);
  }

  /** A write that is recorded leaves nothing a COMMIT could refuse. */
  lemma RecordedCommits(b: Ledger, c: Claim, e: Entry, now: int)
    requires AtRest(b.tables) && Drawable(b.tables, b.supply)
    ensures var (after, r) := Simple.Once(b, c, TheWrite(e), now);
      r.Recorded? ==> BookBalances(after.tables) && KeysSettled(after.tables) && after.tables.checks == {}
  {
    hide WellFormed, Drawable, Simple.Post, KeyCheck, FindTransaction, BookBalances;
    var (after, r) := Simple.Once(b, c, TheWrite(e), now);
    if r.Recorded? && !r.record.replayed {
      var reserved := b.(tables := WithKey(b.tables, c.key, KeyRow(c.hash, None)));
      ReservedIsWellFormed(b, c);
      OneCall(reserved, e, now);
      PostedBalances(reserved, e, now);
      PostedIsChecked(reserved, e, now);
      LedgerCalls.CallsKeepKeys(reserved, [PostCall(e)], now);
      KeyAside(RunCalls(reserved, [PostCall(e)], now).0.tables, c.key, KeyRow(c.hash, Some(r.record.transaction)));
    } else {
      RestBalances(b.tables);
    }
  }

  lemma KeyAside(t: Tables, key: string, row: KeyRow)
    ensures BookBalances(WithKey(t, key, row)) == BookBalances(t)
  {
  }

  lemma RestBalances(t: Tables)
    requires AtRest(t)
    ensures BookBalances(t) && t.checks == {}
  {
  }

  lemma PostedIsChecked(b: Ledger, e: Entry, now: int)
    requires Simple.Post(b, e, now).1.Posted?
    ensures Simple.Post(b, e, now).0.tables.checks == {}
  {
  }

  /** Defaults are only ever drawn, so rows already written keep their own. */
  lemma OnceDraws(b: Ledger, c: Claim, e: Entry, now: int)
    requires Drawable(b.tables, b.supply)
    ensures Drawable(b.tables, Simple.Once(b, c, TheWrite(e), now).0.supply)
    ensures b.supply.transaction <= Simple.Once(b, c, TheWrite(e), now).0.supply.transaction
  {
    hide KeyCheck, FindTransaction, Enter, PostVerdict, Attempted;
    OneCall(b.(tables := WithKey(b.tables, c.key, KeyRow(c.hash, None))), e, now);
  }

  lemma CommitPublishes(s: Session)
    requires Invariant.Valid(s) && !s.aborted && BookBalances(s.state.tables) && KeysSettled(s.state.tables)
    requires s.state.tables.checks == {}
    ensures Commit(s).Ok? && Commit(s).state.tables == s.state.tables
    ensures AtRest(s.state.tables) && Drawable(s.state.tables, s.supply)
  {
    CommitMeans(s);
    assert s.state.tables.(checks := {}) == s.state.tables;
  }

  lemma OpenedCommits(b: Ledger, a: AccountRequest)
    requires AtRest(b.tables)
    ensures var (after, r) := Simple.Open(b, a);
      BookBalances(after.tables) && KeysSettled(after.tables) && after.tables.checks == {}
  {
  }

  lemma OpenDraws(b: Ledger, a: AccountRequest)
    requires Drawable(b.tables, b.supply)
    ensures Drawable(b.tables, Simple.Open(b, a).0.supply)
  {
  }

  /** An account just opened is answered with nothing on it. */
  lemma OpenedIsEmpty(b: Ledger, a: AccountRequest, fate: Fate)
    requires WellFormed(b.tables) && Drawable(b.tables, b.supply)
    ensures var r := ServedOpen(b, a, fate).1;
      r.Opened? ==>
        r.balance.code == a.code && r.balance.name == a.name && r.balance.currency == a.currency
        && KindOf(a.kind) == Some(r.balance.kind) && r.balance.amount == 0 && r.balance.postings == 0
  {
    var (after, r) := Simple.Open(b, a);
    if r.Opened? {
      var row := after.tables.accounts[|b.tables.accounts|];
      LastIsFound(b.tables.accounts, row);
      forall p | p in b.tables.postings ensures p.account != row.id {
        assert PostingHeld(b.tables, p);
      }
      NothingOn(b.tables.postings, row.id);
    }
  }

  lemma {:induction false} LastIsFound(accounts: seq<Account>, row: Account)
    requires FindAccount(accounts, row.code).None?
    ensures FindAccount(accounts + [row], row.code) == Some(row)
  {
    if accounts == [] {
    } else {
      LastIsFound(accounts[1..], row);
      assert (accounts + [row])[1..] == accounts[1..] + [row];
    }
  }

  lemma {:induction false} NothingOn(ps: seq<Posting>, account: nat)
    requires forall p :: p in ps ==> p.account != account
    ensures On(ps, account) == []
  {
    if ps == [] {
    } else {
      NothingOn(ps[..|ps| - 1], account);
    }
  }

  class Pool {
    var ledger: Ledger

    ghost predicate Valid()
      reads this
    {
      AtRest(ledger.tables) && Drawable(ledger.tables, ledger.supply)
    }

    constructor ()
      ensures Valid() && ledger == Ledger(EMPTY, Supply(0, 0, 0))
    {
      ledger := Ledger(EMPTY, Supply(0, 0, 0));
    }

    /** One request: reserved, posted and read back in one transaction, committed or
        rolled back. A book at rest is what it finds and what it leaves. */
    method PostTransaction(q: PostRequest) returns (r: Answer)
      requires Valid()
      modifies this
      ensures Valid()
      ensures (ledger, r) == ServedPost(old(ledger), q)
    {
      hide AtRest, Drawable, Simple.Once, Invariant.Valid, Reads.EntryHeld;
      if q.key == "" {
        return NoKey;
      }
      if |q.entry.legs| > MAX_POSTINGS {
        return TooManyPostings(|q.entry.legs|);
      }
      var tx := new LedgerCalls.Tx(ledger.tables, ledger.supply, q.now);
      var c := Claim(q.key, q.hash);
      RecordedCommits(ledger, c, q.entry, q.now);
      OnceDraws(ledger, c, q.entry, q.now);
      var once := tx.Once(c, TheWrite(q.entry));
      var stored := None;
      if once.Recorded? && once.record.replayed {
        stored := Reads.EntryOf(tx.session.state.tables, once.record.transaction);
      }
      if once.Turned? || (once.record.replayed && stored.None?) || q.fate.NeverCommitted? {
        ledger := ledger.(supply := tx.session.supply);
        return if once.Turned? then Answer.Refused(once.why)
               else if once.record.replayed && stored.None? then NotFound else NoAnswer;
      }
      CommitPublishes(tx.session);
      ledger := Ledger(Commit(tx.session).state.tables, tx.session.supply);
      if q.fate.Unacknowledged? {
        return NoAnswer;
      }
      return Created(BodyOf(once.record.transaction, if once.record.replayed then stored.value else q.entry),
        once.record.replayed);
    }

    /** One account opened and its balance read back in one transaction. */
    method OpenAccount(a: AccountRequest, now: int, fate: Fate) returns (r: Answer)
      requires Valid()
      modifies this
      ensures Valid()
      ensures (ledger, r) == ServedOpen(old(ledger), a, fate)
    {
      hide AtRest, Drawable, Invariant.Valid, OpenVerdict, KindOf, Totals.BalanceOf;
      var tx := new LedgerCalls.Tx(ledger.tables, ledger.supply, now);
      OpenedCommits(ledger, a);
      OpenDraws(ledger, a);
      var answered := tx.Open(a);
      var balance := None;
      if answered.Opened? {
        balance := Totals.BalanceOf(tx.session.state.tables, a.code);
      }
      if answered.NotOpened? || balance.None? || fate.NeverCommitted? {
        ledger := ledger.(supply := tx.session.supply);
        return if answered.NotOpened? then Answer.NotOpened(answered.why)
               else if balance.None? then NotFound else NoAnswer;
      }
      CommitPublishes(tx.session);
      ledger := Ledger(Commit(tx.session).state.tables, tx.session.supply);
      if fate.Unacknowledged? {
        return NoAnswer;
      }
      return Answer.Opened(balance.value);
    }
  }

  // ---------------------------------------------------------------- runs of requests

  /** Request after request, from one book at rest to the next. */
  ghost predicate Run(ledgers: seq<Ledger>, qs: seq<Request>, rs: seq<Answer>) {
    && |ledgers| == |qs| + 1 && |rs| == |qs|
    && (forall i :: 0 <= i <= |qs| ==> AtRest(ledgers[i].tables) && Drawable(ledgers[i].tables, ledgers[i].supply))
    && (forall i :: 0 <= i < |qs| ==> Follows(ledgers, i, qs[i], rs[i]))
  }

  ghost predicate Follows(ledgers: seq<Ledger>, i: nat, q: Request, r: Answer) {
    i + 1 < |ledgers| && (ledgers[i + 1], r) == Served(ledgers[i], q)
  }

  method ServeAll(pool: Pool, qs: seq<Request>) returns (rs: seq<Answer>, ghost ledgers: seq<Ledger>)
    requires pool.Valid()
    modifies pool
    ensures pool.Valid() && Run(ledgers, qs, rs)
    ensures ledgers[0] == old(pool.ledger) && ledgers[|qs|] == pool.ledger
  {
    hide ServedPost, ServedOpen, AtRest, Drawable;
    rs, ledgers := [], [pool.ledger];
    for i := 0 to |qs|
      invariant pool.Valid() && |rs| == i && |ledgers| == i + 1
      invariant ledgers[0] == old(pool.ledger) && ledgers[i] == pool.ledger
      invariant forall k :: 0 <= k <= i ==> AtRest(ledgers[k].tables) && Drawable(ledgers[k].tables, ledgers[k].supply)
      invariant forall k :: 0 <= k < i ==> Follows(ledgers, k, qs[k], rs[k])
    {
      var r: Answer;
      match qs[i] {
        case Posts(post) => r := pool.PostTransaction(post);
        case Opens(account, now, fate) => r := pool.OpenAccount(account, now, fate);
      }
      assert (pool.ledger, r) == Served(ledgers[i], qs[i]);
      rs := rs + [r];
      ghost var on := ledgers + [pool.ledger];
      forall k | 0 <= k < i ensures Follows(on, k, qs[k], rs[k]) {
        assert Follows(ledgers, k, qs[k], rs[k]) && on[k] == ledgers[k] && on[k + 1] == ledgers[k + 1];
      }
      ledgers := on;
    }
  }

  /** What a key was answered with: its row, and the entry it names, read back. */
  ghost predicate Stands(b: Ledger, key: string, hash: Digest, body: Body) {
    && key in b.tables.keys && b.tables.keys[key] == KeyRow(hash, Some(body.id))
    && body.id < b.supply.transaction
    && ReadsAs(b.tables, body)
  }

  ghost predicate ReadsAs(t: Tables, body: Body) {
    var stored := Reads.EntryHeld(t, body.id);
    stored.Some? && BodyOf(body.id, stored.value) == body
  }

  ghost predicate Accountable(accounts: seq<Account>, ps: seq<Posting>) {
    forall p :: p in ps ==> Reads.AccountAt(accounts, p.account).Some?
  }

  lemma {:induction false} LegsHeldLater(accounts: seq<Account>, later: seq<Account>, ps: seq<Posting>)
    requires accounts <= later && Accountable(accounts, ps)
    ensures Reads.LegsHeld(later, ps) == Reads.LegsHeld(accounts, ps)
  {
    if ps == [] {
    } else {
      LegsHeldLater(accounts, later, ps[..|ps| - 1]);
      assert ps[|ps| - 1] in ps;
      Reads.PrefixAccount(accounts, later, ps[|ps| - 1].account);
    }
  }

  lemma OwnAccounts(t: Tables, id: nat)
    requires WellFormed(t)
    ensures Accountable(t.accounts, Of(t.postings, id))
  {
    OfMembers(t.postings, id);
    forall p | p in Of(t.postings, id) ensures Reads.AccountAt(t.accounts, p.account).Some? {
      assert PostingHeld(t, p);
    }
  }

  /** An entry reads back the same once more rows are in, if none are its own. */
  lemma ReadsTheSame(t: Tables, later: Tables, id: nat)
    requires WellFormed(t) && Extends(t, later) && FindTransaction(t.transactions, id).Some?
    requires Of(later.postings, id) == Of(t.postings, id)
    ensures Reads.EntryHeld(later, id) == Reads.EntryHeld(t, id)
  {
    hide WellFormed;
    Reads.PrefixFinds(t.transactions, later.transactions, id);
    OwnAccounts(t, id);
    LegsHeldLater(t.accounts, later.accounts, Of(t.postings, id));
  }

  lemma OnceLeaves(b: Ledger, c: Claim, w: Write, now: int, id: nat)
    requires id < b.supply.transaction
    ensures var after := Simple.Once(b, c, w, now).0;
      Extends(b.tables, after.tables) && Of(after.tables.postings, id) == Of(b.tables.postings, id)
      && id < after.supply.transaction
  {
    var q := Calls.Claims(c, w);
    assert [q][..0] == [];
    assert Calls.TakeAll(b, [], now).0 == b;
    assert Calls.TakeAll(b, [q], now).0 == Simple.Once(b, c, w, now).0;
    Calls.TakeAllExtends(b, [q], now);
    Reads.RunLeavesLegs(b, [q], now, id);
  }

  lemma PostKeeps(b: Ledger, q: PostRequest, key: string, hash: Digest, body: Body)
    requires AtRest(b.tables) && Stands(b, key, hash, body)
    ensures Stands(ServedPost(b, q).0, key, hash, body)
  {
    hide Simple.Once, Reads.EntryHeld, Of, WellFormed, FindTransaction;
    var c, w := Claim(q.key, q.hash), TheWrite(q.entry);
    var after := Simple.Once(b, c, w, q.now).0;
    OnceLeaves(b, c, w, q.now, body.id);
    StoredIsThere(b.tables, body.id);
    ReadsTheSame(b.tables, after.tables, body.id);
  }

  lemma OpenKeeps(b: Ledger, a: AccountRequest, fate: Fate, key: string, hash: Digest, body: Body)
    requires AtRest(b.tables) && Stands(b, key, hash, body)
    ensures Stands(ServedOpen(b, a, fate).0, key, hash, body)
  {
    hide OpenVerdict, Reads.EntryHeld, Of, WellFormed, FindTransaction, Totals.BalanceOf;
    var after := Simple.Open(b, a).0;
    StoredIsThere(b.tables, body.id);
    ReadsTheSame(b.tables, after.tables, body.id);
  }

  /** What stands under a key goes on standing, whatever is asked next. */
  lemma ServedKeeps(b: Ledger, q: Request, key: string, hash: Digest, body: Body)
    requires AtRest(b.tables) && Stands(b, key, hash, body)
    ensures Stands(Served(b, q).0, key, hash, body)
  {
    hide ServedPost, ServedOpen, Stands;
    match q
    case Posts(post) => PostKeeps(b, post, key, hash, body);
    case Opens(a, _, fate) => OpenKeeps(b, a, fate, key, hash, body);
  }

  lemma StoredIsThere(t: Tables, id: nat)
    requires Reads.EntryHeld(t, id).Some?
    ensures FindTransaction(t.transactions, id).Some?
  {
  }

  /** A 201 carries what stands under its key from then on. */
  lemma CreatedStands(b: Ledger, q: PostRequest)
    requires AtRest(b.tables) && Drawable(b.tables, b.supply)
    ensures var (after, r) := ServedPost(b, q);
      r.Created? ==> Stands(after, q.key, q.hash, r.body) && (r.replayed ==> Stands(b, q.key, q.hash, r.body))
                     && (!r.replayed ==> q.key !in b.tables.keys) && q.key != ""
  {
    hide AtRest, WellFormed, Drawable, Reads.EntryHeld, Simple.Post, FindTransaction;
    var (after, r) := ServedPost(b, q);
    if r.Created? {
      if r.replayed {
        ReplayedStands(b, q);
      } else {
        FreshStands(b, q);
      }
    }
  }

  lemma ReplayedStands(b: Ledger, q: PostRequest)
    requires Drawable(b.tables, b.supply) && ServedPost(b, q).1.Created? && ServedPost(b, q).1.replayed
    ensures ServedPost(b, q).0 == b && Stands(b, q.key, q.hash, ServedPost(b, q).1.body)
  {
    hide Simple.Post, RunCalls, KeysSettled;
    StoredIsThere(b.tables, ServedPost(b, q).1.body.id);
  }

  lemma FreshStands(b: Ledger, q: PostRequest)
    requires AtRest(b.tables) && Drawable(b.tables, b.supply)
    requires ServedPost(b, q).1.Created? && !ServedPost(b, q).1.replayed
    ensures q.key !in b.tables.keys && Stands(ServedPost(b, q).0, q.key, q.hash, ServedPost(b, q).1.body)
  {
    hide AtRest, WellFormed, Drawable, Reads.EntryHeld, FindTransaction, Simple.Post, KeysSettled;
    var c := Claim(q.key, q.hash);
    var reserved := b.(tables := WithKey(b.tables, q.key, KeyRow(q.hash, None)));
    ReservedIsWellFormed(b, c);
    OneCall(reserved, q.entry, q.now);
    Reads.PostReadsBack(reserved, q.entry, q.now, []);
    var worked := Simple.Post(reserved, q.entry, q.now);
    assert Calls.TakeAll(worked.0, [], q.now).0 == worked.0;
    PostedId(reserved, q.entry, q.now);
    SameRead(worked.0.tables, WithKey(worked.0.tables, q.key, KeyRow(q.hash, Some(worked.1.id))), worked.1.id);
  }

  lemma PostedId(b: Ledger, e: Entry, now: int)
    requires Simple.Post(b, e, now).1.Posted?
    ensures Simple.Post(b, e, now).1.id < Simple.Post(b, e, now).0.supply.transaction
  {
  }

  lemma SameRead(t: Tables, u: Tables, id: nat)
    requires t.transactions == u.transactions && t.postings == u.postings && t.accounts == u.accounts
    ensures Reads.EntryHeld(t, id) == Reads.EntryHeld(u, id)
  {
  }

  lemma {:induction false} StandsOn(ledgers: seq<Ledger>, qs: seq<Request>, rs: seq<Answer>, i: nat, j: nat,
                                    key: string, hash: Digest, body: Body)
    requires Run(ledgers, qs, rs) && i <= j <= |qs| && Stands(ledgers[i], key, hash, body)
    ensures Stands(ledgers[j], key, hash, body)
  {
    hide Served, Stands, AtRest, Drawable;
    if i == j {
    } else {
      StandsOn(ledgers, qs, rs, i, j - 1, key, hash, body);
      assert Follows(ledgers, j - 1, qs[j - 1], rs[j - 1]);
      ServedKeeps(ledgers[j - 1], qs[j - 1], key, hash, body);
    }
  }

  /** Over any run of requests, every 201 under one key carries one body, legs in the
      order they were sent, and only the first of them is not a replay; a request with
      another fingerprint is refused with a conflict, whatever becomes of its COMMIT. */
  lemma OneBodyPerKey(ledgers: seq<Ledger>, qs: seq<Request>, rs: seq<Answer>, i: nat, j: nat)
    requires Run(ledgers, qs, rs) && i < j < |qs| && qs[i].Posts? && qs[j].Posts?
    requires qs[i].post.key == qs[j].post.key && rs[i].Created?
    ensures rs[j].Created? ==> rs[j] == Created(rs[i].body, true) && qs[j].post.hash == qs[i].post.hash
    ensures !rs[i].replayed ==> rs[i].body == BodyOf(rs[i].body.id, qs[i].post.entry)
    ensures var q := qs[j].post;
      q.hash != qs[i].post.hash && |q.entry.legs| <= MAX_POSTINGS && KeyCheck(q.key, q.hash).None?
      ==> rs[j] == Answer.Refused(KeyReused)
  {
    hide ServedPost, ServedOpen, Stands, AtRest, Drawable, KeyCheck;
    var p, q := qs[i].post, qs[j].post;
    assert Follows(ledgers, i, qs[i], rs[i]) && Follows(ledgers, j, qs[j], rs[j]);
    CreatedStands(ledgers[i], p);
    FreshIsTheRequests(ledgers[i], p);
    StandsOn(ledgers, qs, rs, i + 1, j, p.key, p.hash, rs[i].body);
    AnsweredByWhatStands(ledgers[j], q, p.hash, rs[i].body);
  }

  lemma FreshIsTheRequests(b: Ledger, q: PostRequest)
    ensures ServedPost(b, q).1.Created? && !ServedPost(b, q).1.replayed ==>
      ServedPost(b, q).1.body == BodyOf(ServedPost(b, q).1.body.id, q.entry)
  {
    hide Simple.Once, Reads.EntryHeld;
  }

  lemma AnsweredByWhatStands(b: Ledger, q: PostRequest, hash: Digest, body: Body)
    requires Stands(b, q.key, hash, body)
    ensures ServedPost(b, q).1.Created? ==> ServedPost(b, q).1 == Created(body, true) && q.hash == hash
    ensures q.key != "" && q.hash != hash && |q.entry.legs| <= MAX_POSTINGS && KeyCheck(q.key, q.hash).None?
      ==> ServedPost(b, q).1 == Answer.Refused(KeyReused)
  {
    hide RunCalls, KeyCheck, Reads.EntryHeld, KeysSettled, FindTransaction;
  }

  // ------------------------------------------------------------------ a safe retry

  /** The request's transaction was committed, whether or not the client heard. */
  predicate IsCommitted(q: PostRequest, r: Answer) { r.Created? || (r.NoAnswer? && q.fate.Unacknowledged?) }

  function Heard(q: PostRequest): PostRequest { q.(fate := Acknowledged) }

  /** A commit whose acknowledgement was lost leaves what it would have answered. */
  lemma LostIsWritten(b: Ledger, q: PostRequest)
    requires IsCommitted(q, ServedPost(b, q).1)
    ensures ServedPost(b, Heard(q)).0 == ServedPost(b, q).0 && ServedPost(b, Heard(q)).1.Created?
    ensures ServedPost(b, q).1.Created? ==> ServedPost(b, Heard(q)).1 == ServedPost(b, q).1
    ensures KeyCheck(q.key, q.hash).None?
  {
    hide RunCalls, Reads.EntryHeld, KeyCheck, KeysSettled, FindTransaction;
  }

  /** What stands under the key of a committed request, for its own retry to find. */
  ghost function Written(b: Ledger, q: PostRequest): Body
    requires IsCommitted(q, ServedPost(b, q).1)
  {
    LostIsWritten(b, q);
    ServedPost(b, Heard(q)).1.body
  }

  lemma RetryFindsIt(b: Ledger, q: PostRequest, body: Body)
    requires Stands(b, q.key, q.hash, body) && KeyCheck(q.key, q.hash).None? && q.key != ""
    requires |q.entry.legs| <= MAX_POSTINGS && q.fate.Acknowledged?
    ensures ServedPost(b, q) == (b, Created(body, true))
  {
    hide RunCalls, KeyCheck, Reads.EntryHeld, KeysSettled, FindTransaction;
  }

  /** A retry is safe and it is answered: after a 201, or a commit whose acknowledgement was
      lost, the same request under the same key is answered with the first result at any
      later time, whatever came between, and writes nothing. */
  lemma RetryIsAnswered(ledgers: seq<Ledger>, qs: seq<Request>, rs: seq<Answer>, i: nat, j: nat)
    requires Run(ledgers, qs, rs) && i < j < |qs| && qs[i].Posts? && qs[j].Posts?
    requires IsCommitted(qs[i].post, rs[i])
    requires qs[j].post.key == qs[i].post.key && qs[j].post.hash == qs[i].post.hash
    requires |qs[j].post.entry.legs| <= MAX_POSTINGS && qs[j].post.fate.Acknowledged?
    ensures Follows(ledgers, i, qs[i], rs[i])
    ensures rs[j] == Created(Written(ledgers[i], qs[i].post), true) && ledgers[j + 1] == ledgers[j]
    ensures rs[i].Created? ==> rs[j].body == rs[i].body
    ensures qs[i].post.key !in ledgers[i].tables.keys ==> rs[j].body == BodyOf(rs[j].body.id, qs[i].post.entry)
  {
    hide ServedPost, ServedOpen, Stands, AtRest, Drawable, KeyCheck;
    var p, q := qs[i].post, qs[j].post;
    LostIsWritten(ledgers[i], p);
    CreatedStands(ledgers[i], Heard(p));
    FreshIsTheRequests(ledgers[i], Heard(p));
    if p.key !in ledgers[i].tables.keys { FreeIsFresh(ledgers[i], Heard(p)); }
    StandsOn(ledgers, qs, rs, i + 1, j, p.key, p.hash, Written(ledgers[i], p));
    assert Follows(ledgers, j, qs[j], rs[j]);
    RetryFindsIt(ledgers[j], q, Written(ledgers[i], p));
  }

  lemma FreeIsFresh(b: Ledger, q: PostRequest)
    requires ServedPost(b, q).1.Created? && q.key !in b.tables.keys
    ensures !ServedPost(b, q).1.replayed
  {
    hide RunCalls, KeyCheck, Reads.EntryHeld, KeysSettled, FindTransaction;
  }
}
