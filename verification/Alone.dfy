/** One request served alone is one session of the interleaved machine, run to its end:
    the statements the server sends and the steps the protocol takes come to the same. */
module Alone {
  import opened Text
  import Book
  import Engine
  import Invariant
  import Simple
  import Reads
  import Calls
  import opened Server
  import P = Protocol

  type Ledger = Simple.Ledger
  type Tables = Book.Tables

  // --------------------------------------------------------------- abstraction

  /** An entry but for its moment, which no answer carries. */
  function Plain(e: Simple.Entry): Simple.Entry { e.(occurredAt := None) }

  function NamedBy(t: Tables): set<nat> {
    set k | k in t.keys && t.keys[k].transaction.Some? :: t.keys[k].transaction.value
  }

  /** What the tables say under each key, and of each entry a key names. */
  function DbOf(t: Tables): P.Db {
    P.Db(map k | k in t.keys :: P.Row(t.keys[k].hash, t.keys[k].transaction),
         map id | id in NamedBy(t) && Reads.EntryHeld(t, id).Some? :: Plain(Reads.EntryHeld(t, id).value),
         set a | a in t.accounts :: a.code)
  }

  function RequestOf(q: Request): P.Request {
    match q
    case Posts(post) => P.PostRequest(Simple.Claim(post.key, post.hash), Plain(post.entry))
    case Opens(account, _, _) => P.OpenRequest(account)
  }

  /** The answer a session gives, as the endpoint words it. */
  predicate Says(answer: P.Answer, r: Answer) {
    match r
    case Created(body, replayed) =>
      (if replayed then answer.Replayed? else answer.Created?) && answer.id == body.id &&
        BodyOf(answer.id, answer.entry) == body
    case Refused(why) => if why.KeyReused? then answer.Conflict? else answer.Refused?
    case NotFound => answer.Broken?
    case NotOpened(_) => answer.Refused?
    case Opened(_) => answer.Opened?
    case _ => answer.NoAnswer?
  }

  /** The steps from one world to another. */
  ghost predicate Leads(w: P.World, acts: seq<P.Act>, after: P.World)
    decreases |acts|
  {
    if acts == [] then w == after
    else P.Enabled(w, acts[0]) && Leads(P.Do(w, acts[0]), acts[1..], after)
  }

  lemma {:induction false} LeadsOn(w: P.World, acts: seq<P.Act>, mid: P.World, more: seq<P.Act>, after: P.World)
    requires Leads(w, acts, mid) && Leads(mid, more, after)
    ensures Leads(w, acts + more, after)
    decreases |acts|
  {
    if acts == [] {
      assert acts + more == more;
    } else {
      LeadsOn(P.Do(w, acts[0]), acts[1..], mid, more, after);
      assert (acts + more)[1..] == acts[1..] + more;
    }
  }

  /** Nobody is left running, so nobody is waited on. */
  predicate Idle(w: P.World) { forall s :: s in w.sessions ==> w.sessions[s].phase.Done? }

  // ------------------------------------------------------------ one session's steps

  /** The session's INSERT has been answered, and nothing else has changed. */
  predicate At(w: P.World, after: P.World, s: P.Sid, r: P.Request, phase: P.Phase) {
    after == w.(sessions := w.sessions[s := P.Session(r, P.ReadCommitted, phase, w.db)])
  }

  lemma Arrives(w: P.World, s: P.Sid, r: P.Request) returns (acts: seq<P.Act>, after: P.World)
    requires Idle(w) && s !in w.sessions
    ensures Leads(w, acts, after) && At(w, after, s, r, P.InsertPhase(w, r))
  {
    acts := [P.Begin(s, r, P.ReadCommitted), P.Ask(s), P.Insert(s)];
    var w0 := P.Do(w, acts[0]);
    var w1 := P.Do(w0, acts[1]);
    after := P.Do(w1, acts[2]);
    assert acts[1..][0] == acts[1] && acts[2..][0] == acts[2];
    assert Leads(after, [], after);
    assert Leads(w1, [acts[2]], after);
    assert acts[1..][1..] == [acts[2]] && Leads(w0, acts[1..], after);
  }

  lemma Steps(w: P.World, a: P.Act)
    requires P.Enabled(w, a)
    ensures Leads(w, [a], P.Do(w, a))
  {
    assert [a][1..] == [];
  }

  /** A fresh key: the entry is refused, or posted, recorded, and committed or not. */
  lemma Fresh(w: P.World, s: P.Sid, r: P.Request, mid: P.World, taken: bool, fate: Fate)
    returns (acts: seq<P.Act>, after: P.World)
    requires r.PostRequest? && At(w, mid, s, r, P.Holding)
    ensures Leads(mid, acts, after)
    ensures
      var answer := if !taken then P.Refused else if fate.Acknowledged? then P.Created(w.next, r.entry) else P.NoAnswer;
      after.sessions == w.sessions[s := P.Session(r, P.ReadCommitted, P.Done(answer), w.db)]
    ensures after.next == w.next + 1
    ensures after.db ==
      if taken && !fate.NeverCommitted?
      then w.db.(keys := w.db.keys[r.claim.key := P.Row(r.claim.hash, Some(w.next))],
        entries := w.db.entries[w.next := r.entry])
      else w.db
  {
    var write := P.Write(s, taken);
    var w0 := P.Do(mid, write);
    Steps(mid, write);
    if !taken {
      return [write], w0;
    }
    var w1 := P.Do(w0, P.Record(s));
    Steps(w0, P.Record(s));
    LeadsOn(mid, [write], w0, [P.Record(s)], w1);
    var last := if fate.NeverCommitted? then P.Fail(s) else P.Commit(s, fate.Acknowledged?);
    after := P.Do(w1, last);
    Steps(w1, last);
    LeadsOn(mid, [write] + [P.Record(s)], w1, [last], after);
    acts := [write] + [P.Record(s)] + [last];
  }

  predicate HasResult(db: P.Db, key: string) {
    key in db.keys && db.keys[key].transaction.Some? && db.keys[key].transaction.value in db.entries
  }

  /** A key that is taken: a conflict, or the first result read back. */
  lemma Taken(w: P.World, s: P.Sid, r: P.Request, mid: P.World, fate: Fate)
    returns (acts: seq<P.Act>, after: P.World)
    requires r.PostRequest? && At(w, mid, s, r, P.Duplicate) && HasResult(w.db, r.claim.key)
    ensures Leads(mid, acts, after) && after.db == w.db && after.next == w.next
    ensures
      var row := w.db.keys[r.claim.key];
      var answer := if row.hash != r.claim.hash then P.Conflict
                    else if fate.Acknowledged? then
                      P.Replayed(row.transaction.value, w.db.entries[row.transaction.value])
                    else P.NoAnswer;
      after.sessions == w.sessions[s := P.Session(r, P.ReadCommitted, P.Done(answer), w.db)]
  {
    var read := P.ReadBack(s);
    var w0 := P.Do(mid, read);
    Steps(mid, read);
    if w.db.keys[r.claim.key].hash != r.claim.hash {
      return [read], w0;
    }
    var w1 := P.Do(w0, P.ReadEntry(s));
    Steps(w0, P.ReadEntry(s));
    LeadsOn(mid, [read], w0, [P.ReadEntry(s)], w1);
    var last := if fate.NeverCommitted? then P.Fail(s) else P.Commit(s, fate.Acknowledged?);
    after := P.Do(w1, last);
    Steps(w1, last);
    LeadsOn(mid, [read] + [P.ReadEntry(s)], w1, [last], after);
    acts := [read] + [P.ReadEntry(s)] + [last];
  }

  // ------------------------------------------------------ what the statements come to

  /** Whether the endpoint opens a transaction for the request at all. */
  predicate IsSent(q: PostRequest) { q.key != "" && |q.entry.legs| <= MAX_POSTINGS }

  ghost function Reserved(b: Ledger, q: PostRequest): Ledger {
    b.(tables := Simple.WithKey(b.tables, q.key, Book.KeyRow(q.hash, None)))
  }

  ghost predicate IsTaken(b: Ledger, q: PostRequest) { Simple.PostVerdict(Reserved(b, q).tables, q.entry).None? }

  lemma PostDraws(b: Ledger, e: Simple.Entry, now: int)
    ensures var (after, r) := Simple.Post(b, e, now);
      && after.supply.transaction == b.supply.transaction + 1
      && r.Posted? == Simple.PostVerdict(b.tables, e).None?
      && (r.Posted? ==> r.id == b.supply.transaction && after.tables.accounts == b.tables.accounts)
      && (r.Posted? ==> Book.FindTransaction(after.tables.transactions, r.id).Some?)
      && (r.Posted? ==> after.tables.keys == b.tables.keys)
  {
    var (after, r) := Simple.Post(b, e, now);
    if r.Posted? { assert Simple.Header(e, r.id, now) in after.tables.transactions; }
  }

  lemma RestIsSettled(t: Tables)
    requires Book.AtRest(t)
    ensures Simple.KeysSettled(t)
  {
  }

  ghost function Entered(b: Ledger, q: PostRequest): Tables {
    Simple.WithKey(Simple.Post(Reserved(b, q), q.entry, q.now).0.tables, q.key,
      Book.KeyRow(q.hash, Some(b.supply.transaction)))
  }

  predicate IsFresh(b: Ledger, q: PostRequest) {
    IsSent(q) && Engine.KeyCheck(q.key, q.hash).None? && q.key !in b.tables.keys
  }

  /** A fresh key draws one id, and commits the entry or nothing. */
  lemma FreshServed(b: Ledger, q: PostRequest)
    requires Book.AtRest(b.tables) && IsFresh(b, q)
    ensures var (after, r) := ServedPost(b, q);
      && after.supply.transaction == b.supply.transaction + 1
      && after.tables == (if IsTaken(b, q) && !q.fate.NeverCommitted? then Entered(b, q) else b.tables)
      && (!IsTaken(b, q) ==> r.Refused? && r.why.WriteFailed?)
      && (IsTaken(b, q) ==>
           r == if q.fate.Acknowledged? then Created(BodyOf(b.supply.transaction, q.entry), false) else NoAnswer)
  {
    hide Book.AtRest, Simple.Post, Engine.KeyCheck, Simple.KeysSettled, Simple.PostVerdict, Book.FindTransaction,
         Reads.EntryHeld;
    RestIsSettled(b.tables);
    OneCall(Reserved(b, q), q.entry, q.now);
    PostDraws(Reserved(b, q), q.entry, q.now);
  }

  /** A key already held is answered by its row, and nothing is drawn. */
  lemma HeldServed(b: Ledger, q: PostRequest)
    requires Book.AtRest(b.tables) && IsSent(q) && Engine.KeyCheck(q.key, q.hash).None? && q.key in b.tables.keys
    ensures HasResult(DbOf(b.tables), q.key)
    ensures var (after, r) := ServedPost(b, q);
      var row, db := b.tables.keys[q.key], DbOf(b.tables);
      && after == b && row.transaction.Some?
      && db.keys[q.key] == P.Row(row.hash, row.transaction)
      && r == if row.hash != q.hash then Answer.Refused(Simple.KeyReused)
              else if q.fate.Acknowledged? then
                Created(BodyOf(row.transaction.value, db.entries[row.transaction.value]), true)
              else NoAnswer
  {
    hide Book.WellFormed, Engine.KeyCheck, Simple.RunCalls, Simple.KeysSettled;
    ResultIsHeld(b.tables, q.key);
  }

  lemma ResultIsHeld(t: Tables, key: string)
    requires Book.AtRest(t) && key in t.keys
    ensures t.keys[key].transaction.Some? && t.keys[key].transaction.value in NamedBy(t)
    ensures Reads.EntryHeld(t, t.keys[key].transaction.value).Some?
  {
  }

  lemma OnceEnters(b: Ledger, q: PostRequest)
    requires Book.AtRest(b.tables) && IsFresh(b, q) && IsTaken(b, q)
    ensures Simple.Once(b, Simple.Claim(q.key, q.hash), TheWrite(q.entry), q.now).0.tables == Entered(b, q)
  {
    hide Book.AtRest, Simple.Post, Engine.KeyCheck, Simple.KeysSettled, Simple.PostVerdict, Book.FindTransaction;
    RestIsSettled(b.tables);
    OneCall(Reserved(b, q), q.entry, q.now);
    PostDraws(Reserved(b, q), q.entry, q.now);
  }

  lemma NamedIsDrawn(b: Ledger, id: nat)
    requires Book.AtRest(b.tables) && Invariant.Drawable(b.tables, b.supply) && id in NamedBy(b.tables)
    ensures id < b.supply.transaction && Book.FindTransaction(b.tables.transactions, id).Some?
  {
  }

  /** Entries named before read as they did. */
  lemma OldEntries(b: Ledger, q: PostRequest, id: nat)
    requires Book.AtRest(b.tables) && Invariant.Drawable(b.tables, b.supply) && IsFresh(b, q) && IsTaken(b, q)
    requires id in NamedBy(b.tables)
    ensures Reads.EntryHeld(Entered(b, q), id) == Reads.EntryHeld(b.tables, id)
  {
    hide Entered, IsTaken, IsFresh, NamedBy, Simple.Once, Reads.EntryHeld, Book.WellFormed, Invariant.Drawable;
    NamedIsDrawn(b, id);
    OnceEnters(b, q);
    OnceLeaves(b, Simple.Claim(q.key, q.hash), TheWrite(q.entry), q.now, id);
    ReadsTheSame(b.tables, Entered(b, q), id);
  }

  /** And the new one as it was sent. */
  lemma NewEntry(b: Ledger, q: PostRequest)
    requires Book.AtRest(b.tables) && Invariant.Drawable(b.tables, b.supply) && IsFresh(b, q) && IsTaken(b, q)
    ensures Reads.EntryHeld(Entered(b, q), b.supply.transaction).Some?
    ensures Plain(Reads.EntryHeld(Entered(b, q), b.supply.transaction).value) == Plain(q.entry)
  {
    hide Book.AtRest, Simple.Post, Simple.PostVerdict, Reads.EntryHeld, Book.WellFormed, Invariant.Drawable,
      Book.FindTransaction;
    var reserved := Reserved(b, q);
    ReservedIsWellFormed(b, Simple.Claim(q.key, q.hash));
    PostDraws(reserved, q.entry, q.now);
    Reads.PostReadsBack(reserved, q.entry, q.now, []);
    var worked := Simple.Post(reserved, q.entry, q.now).0;
    assert Calls.TakeAll(worked, [], q.now).0 == worked;
    SameRead(worked.tables, Entered(b, q), b.supply.transaction);
  }

  lemma EnteredRows(b: Ledger, q: PostRequest)
    requires IsTaken(b, q)
    ensures Entered(b, q).keys == b.tables.keys[q.key := Book.KeyRow(q.hash, Some(b.supply.transaction))]
    ensures Entered(b, q).accounts == b.tables.accounts
  {
    hide Simple.Post, Simple.PostVerdict, Book.FindTransaction;
    PostDraws(Reserved(b, q), q.entry, q.now);
  }

  function Put(db: P.Db, q: PostRequest, id: nat): P.Db {
    db.(keys := db.keys[q.key := P.Row(q.hash, Some(id))], entries := db.entries[id := Plain(q.entry)])
  }

  lemma NamedOnceMore(t: Tables, u: Tables, key: string, hash: Book.Digest, id: nat)
    requires key !in t.keys && u.keys == t.keys[key := Book.KeyRow(hash, Some(id))]
    ensures NamedBy(u) == NamedBy(t) + {id}
  {
    forall x | x in NamedBy(t) + {id} ensures x in NamedBy(u) {
      if x == id {
        assert key in u.keys && u.keys[key].transaction == Some(x);
      } else {
        var k :| k in t.keys && t.keys[k].transaction.Some? && t.keys[k].transaction.value == x;
        assert k in u.keys && u.keys[k] == t.keys[k];
      }
    }
    forall x | x in NamedBy(u) ensures x in NamedBy(t) + {id} {
      var k :| k in u.keys && u.keys[k].transaction.Some? && u.keys[k].transaction.value == x;
      assert k != key ==> k in t.keys && t.keys[k] == u.keys[k];
    }
  }

  /** The tables with the entry in are the old ones and the key, with its entry. */
  lemma EnteredDb(b: Ledger, q: PostRequest)
    requires Book.AtRest(b.tables) && Invariant.Drawable(b.tables, b.supply) && IsFresh(b, q) && IsTaken(b, q)
    ensures DbOf(Entered(b, q)) == Put(DbOf(b.tables), q, b.supply.transaction)
  {
    hide Book.AtRest, Invariant.Drawable, IsFresh, IsTaken, Entered, Reads.EntryHeld, NamedBy, Plain;
    var id := b.supply.transaction;
    var t, u := b.tables, Entered(b, q);
    assert q.key !in t.keys by { FreshIsNotHeld(b, q); }
    EnteredRows(b, q);
    NamedOnceMore(t, u, q.key, q.hash, id);
    NewEntry(b, q);
    forall x | x in NamedBy(t) ensures x != id && Reads.EntryHeld(u, x) == Reads.EntryHeld(t, x) {
      NamedIsDrawn(b, x);
      OldEntries(b, q, x);
    }
    var was, now := DbOf(t), DbOf(u);
    assert now.keys == was.keys[q.key := P.Row(q.hash, Some(id))];
    assert now.entries == was.entries[id := Plain(q.entry)];
  }

  lemma FreshIsNotHeld(b: Ledger, q: PostRequest)
    requires IsFresh(b, q)
    ensures q.key !in b.tables.keys
  {
  }

  // ------------------------------------------------------------- one request, one session

  /** World and ledger say the same. */
  ghost predicate Matches(w: P.World, b: Ledger) {
    w.db == DbOf(b.tables) && w.next == b.supply.transaction && Idle(w)
  }

  /** The session has ended with the answer the request was given, and no other changed. */
  predicate Ended(w: P.World, after: P.World, s: P.Sid, q: Request, r: Answer) {
    && after.sessions.Keys == w.sessions.Keys + {s}
    && (forall c :: c in w.sessions && c != s ==> after.sessions[c] == w.sessions[c])
    && after.sessions[s].request == RequestOf(q)
    && after.sessions[s].phase.Done? && Says(after.sessions[s].phase.answer, r)
  }

  /** A key or a hash of the wrong shape is refused before anything is written. */
  lemma MalformedServed(b: Ledger, q: PostRequest)
    requires IsSent(q) && Engine.KeyCheck(q.key, q.hash).Some?
    ensures ServedPost(b, q).0 == b && ServedPost(b, q).1.Refused? && ServedPost(b, q).1.why.BadKey?
  {
    hide Simple.RunCalls;
  }

  lemma DbKeys(t: Tables, key: string)
    ensures key in DbOf(t).keys <==> key in t.keys
  {
  }

  lemma BodyIsPlain(id: nat, e: Simple.Entry)
    ensures BodyOf(id, Plain(e)) == BodyOf(id, e)
  {
  }

  lemma OnePostIsOneSession(b: Ledger, q: PostRequest, w: P.World, s: P.Sid) returns (acts: seq<P.Act>, after: P.World)
    requires Book.AtRest(b.tables) && Invariant.Drawable(b.tables, b.supply) && IsSent(q)
    requires Matches(w, b) && s !in w.sessions
    ensures Leads(w, acts, after) && Matches(after, ServedPost(b, q).0)
    ensures Ended(w, after, s, Posts(q), ServedPost(b, q).1)
  {
    hide Book.AtRest, Invariant.Drawable, ServedPost, DbOf, IsTaken, Entered, Leads, Plain;
    var r := RequestOf(Posts(q));
    var first, mid := Arrives(w, s, r);
    if Engine.KeyCheck(q.key, q.hash).Some? {
      MalformedServed(b, q);
      return first, mid;
    }
    DbKeys(b.tables, q.key);
    BodyIsPlain(b.supply.transaction, q.entry);
    var rest: seq<P.Act>;
    if q.key in b.tables.keys {
      HeldServed(b, q);
      rest, after := Taken(w, s, r, mid, q.fate);
    } else {
      FreshServed(b, q);
      if IsTaken(b, q) { EnteredDb(b, q); }
      rest, after := Fresh(w, s, r, mid, IsTaken(b, q), q.fate);
    }
    LeadsOn(w, first, mid, rest, after);
    acts := first + rest;
  }

  // ---------------------------------------------------------------- opening an account

  /** An account code: refused, or held, read back, and committed or not. */
  lemma Opening(w: P.World, s: P.Sid, r: P.Request, mid: P.World, fate: Fate)
    returns (acts: seq<P.Act>, after: P.World)
    requires r.OpenRequest? && At(w, mid, s, r, P.Holding)
    ensures Leads(mid, acts, after)
    ensures
      var answer := if fate.Acknowledged? then P.Opened else P.NoAnswer;
      after.sessions == w.sessions[s := P.Session(r, P.ReadCommitted, P.Done(answer), w.db)]
    ensures after.next == w.next
    ensures after.db == if fate.NeverCommitted? then w.db else w.db.(codes := w.db.codes + {r.account.code})
  {
    var read := P.ReadBack(s);
    var w0 := P.Do(mid, read);
    Steps(mid, read);
    var last := if fate.NeverCommitted? then P.Fail(s) else P.Commit(s, fate.Acknowledged?);
    after := P.Do(w0, last);
    Steps(w0, last);
    LeadsOn(mid, [read], w0, [last], after);
    acts := [read] + [last];
  }

  ghost predicate CanOpen(t: Tables, a: Simple.AccountRequest) {
    && Engine.KindOf(a.kind).Some? && Engine.AccountCheck(a.code, a.name, a.currency).None?
    && a.code !in DbOf(t).codes
  }

  /** The account is refused exactly where the session's INSERT is. */
  lemma OpenServed(b: Ledger, a: Simple.AccountRequest, fate: Fate)
    requires Book.WellFormed(b.tables) && Invariant.Drawable(b.tables, b.supply)
    ensures var (after, r) := ServedOpen(b, a, fate);
      && after.supply.transaction == b.supply.transaction
      && after.tables == (if CanOpen(b.tables, a) && !fate.NeverCommitted? then Simple.Open(b, a).0.tables
        else b.tables)
      && (!CanOpen(b.tables, a) ==> r.NotOpened?)
      && (CanOpen(b.tables, a) ==> if fate.Acknowledged? then r.Opened? else r.NoAnswer?)
  {
    hide Engine.AccountCheck, Engine.KindOf, Book.WellFormed;
    CodesAre(b.tables, a.code);
    if CanOpen(b.tables, a) {
      var row := Simple.Open(b, a).0.tables.accounts[|b.tables.accounts|];
      LastIsFound(b.tables.accounts, row);
    }
  }

  lemma CodesAre(t: Tables, code: string)
    ensures code in DbOf(t).codes <==> Book.FindAccount(t.accounts, code).Some?
  {
  }

  lemma OpenedDb(b: Ledger, a: Simple.AccountRequest)
    requires Book.AtRest(b.tables) && CanOpen(b.tables, a)
    ensures DbOf(Simple.Open(b, a).0.tables) == DbOf(b.tables).(codes := DbOf(b.tables).codes + {a.code})
  {
    hide Engine.AccountCheck, Engine.KindOf, Book.WellFormed, NamedBy, Plain, Reads.EntryHeld;
    CodesAre(b.tables, a.code);
    var t, u := b.tables, Simple.Open(b, a).0.tables;
    forall id | id in NamedBy(t) ensures Reads.EntryHeld(u, id) == Reads.EntryHeld(t, id) { OpenLeavesEntry(b, a, id); }
    SameNames(t, u);
    assert DbOf(u).entries == DbOf(t).entries;
    assert DbOf(u).codes == DbOf(t).codes + {a.code};
    assert DbOf(u).keys == DbOf(t).keys;
  }

  lemma SameNames(t: Tables, u: Tables)
    requires t.keys == u.keys
    ensures NamedBy(t) == NamedBy(u)
  {
  }

  lemma OpenLeavesEntry(b: Ledger, a: Simple.AccountRequest, id: nat)
    requires Book.AtRest(b.tables) && CanOpen(b.tables, a) && id in NamedBy(b.tables)
    ensures Reads.EntryHeld(Simple.Open(b, a).0.tables, id) == Reads.EntryHeld(b.tables, id)
  {
    hide Engine.AccountCheck, Engine.KindOf, Reads.EntryHeld, Book.FindTransaction, Book.Of;
    ReadsTheSame(b.tables, Simple.Open(b, a).0.tables, id);
  }

  lemma OneOpenIsOneSession(b: Ledger, a: Simple.AccountRequest, now: int, fate: Fate, w: P.World, s: P.Sid)
    returns (acts: seq<P.Act>, after: P.World)
    requires Book.AtRest(b.tables) && Invariant.Drawable(b.tables, b.supply)
    requires Matches(w, b) && s !in w.sessions
    ensures Leads(w, acts, after) && Matches(after, ServedOpen(b, a, fate).0)
    ensures Ended(w, after, s, Opens(a, now, fate), ServedOpen(b, a, fate).1)
  {
    hide Book.AtRest, Book.WellFormed, Invariant.Drawable, ServedOpen, DbOf, Leads, Simple.Open;
    var r := P.OpenRequest(a);
    var first, mid := Arrives(w, s, r);
    assert Book.WellFormed(b.tables) by { RestIsWellFormed(b.tables); }
    OpenServed(b, a, fate);
    if !CanOpen(b.tables, a) {
      return first, mid;
    }
    OpenedDb(b, a);
    var rest;
    rest, after := Opening(w, s, r, mid, fate);
    LeadsOn(w, first, mid, rest, after);
    acts := first + rest;
  }

  lemma RestIsWellFormed(t: Tables)
    requires Book.AtRest(t)
    ensures Book.WellFormed(t)
  {
  }

  // ------------------------------------------------------------ a run of the server

  predicate Reaches(q: Request) { q.Opens? || IsSent(q.post) }

  /** A request that is not sent to the database changes nothing. */
  lemma UnsentServed(b: Ledger, q: Request)
    requires !Reaches(q)
    ensures Served(b, q) == (b, if q.post.key == "" then NoKey else TooManyPostings(|q.post.entry.legs|))
  {
  }

  /** What the server does with one request, statement by statement, is what one session
      of the interleaved machine does by itself, step by step: the same ledger after, the
      next id the same, and the same answer. */
  lemma OneRequestIsOneSession(b: Ledger, q: Request, w: P.World, s: P.Sid) returns (acts: seq<P.Act>, after: P.World)
    requires Book.AtRest(b.tables) && Invariant.Drawable(b.tables, b.supply) && Reaches(q)
    requires Matches(w, b) && s !in w.sessions
    ensures Leads(w, acts, after) && Matches(after, Served(b, q).0) && Ended(w, after, s, q, Served(b, q).1)
  {
    hide Book.AtRest, Invariant.Drawable, ServedPost, ServedOpen, Matches, Leads, Ended;
    match q
    case Posts(post) => acts, after := OnePostIsOneSession(b, post, w, s);
    case Opens(a, now, fate) => acts, after := OneOpenIsOneSession(b, a, now, fate, w, s);
  }

  /** The sessions of the requests that were sent, each by its place in the run. */
  ghost predicate Answers(w: P.World, qs: seq<Request>, rs: seq<Answer>, n: nat)
    requires n <= |qs| == |rs|
  {
    && (forall s: P.Sid :: s in w.sessions <==> s < n && Reaches(qs[s]))
    && (forall s :: s in w.sessions ==> SaysAt(w, qs, rs, s))
  }

  predicate SaysAt(w: P.World, qs: seq<Request>, rs: seq<Answer>, s: P.Sid)
    requires |qs| == |rs|
  {
    && s in w.sessions && s < |qs| && w.sessions[s].request == RequestOf(qs[s])
    && w.sessions[s].phase.Done? && Says(w.sessions[s].phase.answer, rs[s])
  }

  lemma AnswersOn(w: P.World, after: P.World, qs: seq<Request>, rs: seq<Answer>, n: nat)
    requires |qs| == |rs| && n < |qs| && Answers(w, qs, rs, n) && Reaches(qs[n])
    requires Ended(w, after, n, qs[n], rs[n])
    ensures Answers(after, qs, rs, n + 1)
  {
    hide Reaches, Says, RequestOf;
    forall s | s in after.sessions ensures SaysAt(after, qs, rs, s) {
      if s != n { assert SaysAt(w, qs, rs, s); }
    }
  }

  /** Request after request, the server is a run of the interleaved machine: its ledger is
      the machine's, and each request's answer is its session's. */
  lemma {:induction false} ServerIsARun(ledgers: seq<Ledger>, qs: seq<Request>, rs: seq<Answer>, n: nat)
    returns (acts: seq<P.Act>, w: P.World)
    requires Server.Run(ledgers, qs, rs) && n <= |qs| && Matches(P.NOTHING, ledgers[0])
    ensures Leads(P.NOTHING, acts, w) && Matches(w, ledgers[n]) && Answers(w, qs, rs, n)
    decreases n
  {
    hide Matches, Book.AtRest, Invariant.Drawable, Served, Leads, Ended, Reaches, Answers;
    if n == 0 {
      acts, w := [], P.NOTHING;
      NothingYet(qs, rs);
    } else {
      var q, r := qs[n - 1], rs[n - 1];
      acts, w := ServerIsARun(ledgers, qs, rs, n - 1);
      assert Server.Follows(ledgers, n - 1, q, r);
      if Reaches(q) {
        NotYet(w, qs, rs, n - 1);
        var more, after := OneRequestIsOneSession(ledgers[n - 1], q, w, n - 1);
        LeadsOn(P.NOTHING, acts, w, more, after);
        AnswersOn(w, after, qs, rs, n - 1);
        acts, w := acts + more, after;
      } else {
        UnsentServed(ledgers[n - 1], q);
        SameAnswers(w, qs, rs, n - 1);
      }
    }
  }

  lemma NothingYet(qs: seq<Request>, rs: seq<Answer>)
    requires |qs| == |rs|
    ensures Leads(P.NOTHING, [], P.NOTHING) && Answers(P.NOTHING, qs, rs, 0)
  {
  }

  lemma NotYet(w: P.World, qs: seq<Request>, rs: seq<Answer>, n: nat)
    requires |qs| == |rs| && n <= |qs| && Answers(w, qs, rs, n)
    ensures n !in w.sessions
  {
  }

  lemma SameAnswers(w: P.World, qs: seq<Request>, rs: seq<Answer>, n: nat)
    requires |qs| == |rs| && n < |qs| && Answers(w, qs, rs, n) && !Reaches(qs[n])
    ensures Answers(w, qs, rs, n + 1)
  {
  }

  /** And what leads from nothing is a run: everything proved of runs holds of it. */
  lemma {:induction false} LeadsIsARun(w: P.World, acts: seq<P.Act>, after: P.World) returns (worlds: seq<P.World>)
    requires Leads(w, acts, after)
    ensures |worlds| == |acts| + 1 && worlds[0] == w && worlds[|acts|] == after
    ensures forall i :: 0 <= i < |acts| ==> P.Follows(worlds[i], acts[i], worlds[i + 1])
    ensures w == P.NOTHING ==> P.Run(worlds, acts)
    decreases |acts|
  {
    if acts == [] {
      worlds := [w];
    } else {
      var rest := LeadsIsARun(P.Do(w, acts[0]), acts[1..], after);
      worlds := [w] + rest;
      forall i | 0 <= i < |acts| ensures P.Follows(worlds[i], acts[i], worlds[i + 1]) {
        if i > 0 { assert P.Follows(rest[i - 1], acts[1..][i - 1], rest[i]); }
      }
    }
  }

  /** An empty ledger is where the machine starts. */
  lemma EmptyMatches(supply: Engine.Supply)
    requires supply.transaction == 0
    ensures Matches(P.NOTHING, Simple.Ledger(Book.EMPTY, supply))
  {
    assert DbOf(Book.EMPTY).keys == map[] && DbOf(Book.EMPTY).codes == {};
    assert NamedBy(Book.EMPTY) == {};
    assert DbOf(Book.EMPTY).entries == map[];
  }

  /** So whatever is asked of an empty server, posts and account openings in any order and
      with any fate, its ledger and its answers are those of a run of the machine. */
  lemma ServerIsTheMachine(ledgers: seq<Ledger>, qs: seq<Request>, rs: seq<Answer>, supply: Engine.Supply)
    returns (worlds: seq<P.World>, acts: seq<P.Act>)
    requires Server.Run(ledgers, qs, rs)
    requires ledgers[0] == Simple.Ledger(Book.EMPTY, supply) && supply.transaction == 0
    ensures P.Run(worlds, acts)
    ensures Matches(worlds[|acts|], ledgers[|qs|]) && Answers(worlds[|acts|], qs, rs, |qs|)
  {
    hide Matches, Answers, Server.Run, Leads;
    EmptyMatches(supply);
    RunHasEnds(ledgers, qs, rs);
    var last;
    acts, last := ServerIsARun(ledgers, qs, rs, |qs|);
    worlds := LeadsIsARun(P.NOTHING, acts, last);
  }

  lemma RunHasEnds(ledgers: seq<Ledger>, qs: seq<Request>, rs: seq<Answer>)
    requires Server.Run(ledgers, qs, rs)
    ensures |ledgers| == |qs| + 1 && |rs| == |qs|
  {
  }
}
