/** The one run in which a taken key is not there to be read: a session at REPEATABLE READ
    whose snapshot is older than the commit it is refused for. */
module Missed {
  import Book
  import Engine
  import Invariant
  import Reversal
  import Simple
  import opened Server
  import opened Alone
  import P = Protocol
  import Unsettled

  type Sid = P.Sid

  /** The late session has asked at its snapshot, and nothing else has happened. */
  predicate Asked(w: P.World, after: P.World, c: Sid, r: P.Request) {
    after == w.(sessions := w.sessions[c := P.Session(r, P.RepeatableRead, P.Asking, w.db)])
  }

  lemma LateAsks(w: P.World, c: Sid, r: P.Request) returns (acts: seq<P.Act>, after: P.World)
    requires c !in w.sessions
    ensures Leads(w, acts, after) && Asked(w, after, c, r)
  {
    var begin := P.Begin(c, r, P.RepeatableRead);
    var w0 := P.Do(w, begin);
    Steps(w, begin);
    after := P.Do(w0, P.Ask(c));
    Steps(w0, P.Ask(c));
    LeadsOn(w, [begin], w0, [P.Ask(c)], after);
    acts := [begin] + [P.Ask(c)];
  }

  /** The holder reserves the key: the late session asks for it, and does not hold it. */
  lemma HolderReserves(w: P.World, c: Sid, late: P.Request, w1: P.World, s: Sid, r: P.Request)
    returns (acts: seq<P.Act>, after: P.World)
    requires Idle(w) && Asked(w, w1, c, late) && s !in w1.sessions
    ensures Leads(w1, acts, after) && At(w1, after, s, r, P.InsertPhase(w1, r))
  {
    hide P.InsertPhase, Leads;
    var begin, ask, insert := P.Begin(s, r, P.ReadCommitted), P.Ask(s), P.Insert(s);
    var w2 := P.Do(w1, begin);
    Steps(w1, begin);
    var w3 := P.Do(w2, ask);
    Steps(w2, ask);
    after := P.Do(w3, insert);
    Steps(w3, insert);
    InsertReadsTheDb(w1, w3, r);
    LeadsOn(w1, [begin], w2, [ask], w3);
    LeadsOn(w1, [begin] + [ask], w3, [insert], after);
    acts := [begin] + [ask] + [insert];
  }

  lemma InsertReadsTheDb(w: P.World, v: P.World, r: P.Request)
    requires w.db == v.db
    ensures P.InsertPhase(w, r) == P.InsertPhase(v, r)
  {
  }

  /** The key is taken by now, and not in the late session's snapshot. */
  lemma LateMisses(w: P.World, c: Sid, r: P.Request, snapshot: P.Db) returns (acts: seq<P.Act>, after: P.World)
    requires r.PostRequest? && !P.Malformed(r) && r.claim.key in w.db.keys && r.claim.key !in snapshot.keys
    requires c in w.sessions && w.sessions[c] == P.Session(r, P.RepeatableRead, P.Asking, snapshot)
    requires forall s :: s in w.sessions && s != c ==> w.sessions[s].phase.Done?
    ensures Leads(w, acts, after) && after.db == w.db && after.next == w.next
    ensures after.sessions == w.sessions[c := P.Session(r, P.RepeatableRead, P.Done(P.Broken), snapshot)]
  {
    hide P.Malformed;
    var insert, read := P.Insert(c), P.ReadBack(c);
    var w1 := P.Do(w, insert);
    Steps(w, insert);
    after := P.Do(w1, read);
    Steps(w1, read);
    LeadsOn(w, [insert], w1, [read], after);
    acts := [insert] + [read];
  }

  lemma FreshIsHeld(b: Ledger, q: PostRequest, w: P.World)
    requires IsFresh(b, q) && w.db == DbOf(b.tables)
    ensures P.InsertPhase(w, RequestOf(Posts(q))) == P.Holding && q.key !in w.db.keys
  {
    hide Engine.KeyCheck;
    DbKeys(b.tables, q.key);
  }

  /** From any book at rest and any entry the ledger takes under a free key: a session at
      REPEATABLE READ asks for the key, another posts the entry under it and commits what
      the statements commit, and the first is then refused as a duplicate and finds no row. */
  lemma RepeatableReadCanMiss(b: Ledger, q: PostRequest, late: PostRequest, w: P.World, s: Sid, c: Sid)
    returns (acts: seq<P.Act>, after: P.World)
    requires Book.AtRest(b.tables) && Invariant.Drawable(b.tables, b.supply) && Matches(w, b)
    requires IsFresh(b, q) && IsTaken(b, q) && late.key == q.key && Engine.KeyCheck(late.key, late.hash).None?
    requires s !in w.sessions && c !in w.sessions && s != c
    ensures Leads(w, acts, after) && after.db == DbOf(Entered(b, q))
    ensures s in after.sessions && after.sessions[s] ==
      P.Session(RequestOf(Posts(q)), P.ReadCommitted, P.Done(P.Created(b.supply.transaction, Plain(q.entry))), w.db)
    ensures c in after.sessions && after.sessions[c] ==
      P.Session(RequestOf(Posts(late)), P.RepeatableRead, P.Done(P.Broken), w.db)
    ensures after.sessions.Keys == w.sessions.Keys + {s, c}
    ensures forall x :: x in w.sessions ==> after.sessions[x] == w.sessions[x]
  {
    hide Book.AtRest, Invariant.Drawable, DbOf, IsTaken, Entered, Leads, Plain, IsFresh, Engine.KeyCheck;
    var r, r' := RequestOf(Posts(q)), RequestOf(Posts(late));
    FreshIsHeld(b, q, w);
    var asks, w1 := LateAsks(w, c, r');
    InsertReadsTheDb(w, w1, r);
    var reserves, w2 := HolderReserves(w, c, r', w1, s, r);
    var commits, w3 := Fresh(w1, s, r, w2, true, Acknowledged);
    EnteredDb(b, q);
    var misses;
    misses, after := LateMisses(w3, c, r', w.db);
    LeadsOn(w, asks, w1, reserves, w2);
    LeadsOn(w, asks + reserves, w2, commits, w3);
    LeadsOn(w, asks + reserves + commits, w3, misses, after);
    acts := asks + reserves + commits + misses;
  }

  // ------------------------------------------------------------------ one such ledger

  const CHARTED := Simple.Ledger(Book.EMPTY.(accounts := Unsettled.Chart()), Engine.Supply(2, 0, 0))

  /** The book two account openings leave. */
  lemma ChartIsOpened(now: int)
    ensures var b0 := Simple.Ledger(Book.EMPTY, Unsettled.UNDRAWN);
      var b1 := ServedOpen(b0, Unsettled.CASH, Acknowledged).0;
      && b1 == Simple.Ledger(Book.EMPTY.(accounts := Unsettled.Chart()[..1]), Engine.Supply(1, 0, 0))
      && ServedOpen(b1, Unsettled.SALES, Acknowledged).0 == CHARTED
      && ServedOpen(b0, Unsettled.CASH, Acknowledged).1.Opened?
      && ServedOpen(b1, Unsettled.SALES, Acknowledged).1.Opened?
  {
    hide Engine.AccountCheck, Engine.KindOf;
    Unsettled.Shapes();
    var chart := Unsettled.Chart();
    assert [] + [chart[0]] == chart[..1] && chart[..1] + [chart[1]] == chart;
    LastIsFound([], chart[0]);
    assert chart[..1][1..] == [];
    assert Book.FindAccount(chart[..1], "sales").None?;
    LastIsFound(chart[..1], chart[1]);
  }

  lemma ChartsAreAtRest()
    ensures Book.AtRest(Book.EMPTY) && Invariant.Drawable(Book.EMPTY, Unsettled.UNDRAWN)
    ensures forall n :: 0 <= n <= 2 ==> Book.AtRest(Book.EMPTY.(accounts := Unsettled.Chart()[..n]))
    ensures Invariant.Drawable(Book.EMPTY.(accounts := Unsettled.Chart()[..1]), Engine.Supply(1, 0, 0))
    ensures Book.AtRest(CHARTED.tables) && Invariant.Drawable(CHARTED.tables, CHARTED.supply)
  {
    Unsettled.CodeShapes();
    assert Unsettled.Chart()[..2] == Unsettled.Chart();
  }

  function SaleUnder(hash: Book.Digest, now: int): PostRequest {
    PostRequest(Unsettled.KEY, hash, Unsettled.SALE, now, Acknowledged)
  }

  /** On it the ledger takes a sale under a key nobody has used. */
  lemma SaleIsTaken(now: int)
    ensures var q := SaleUnder(Unsettled.HASH, now); IsFresh(CHARTED, q) && IsTaken(CHARTED, q)
  {
    hide Engine.KeyCheck, Reversal.IsSound, Simple.PostVerdict;
    Unsettled.KeyShapes();
    Unsettled.SaleIsSound();
    var reserved := Reserved(CHARTED, SaleUnder(Unsettled.HASH, now));
    Reversal.VerdictIsTheEntrys(reserved.tables, Unsettled.SALE);
  }

  /** So a run from nothing reaches it: two accounts opened, then the sale posted under a
      key that a session with an older snapshot has asked for and does not find. */
  lemma SaleIsMissed(now: int) returns (worlds: seq<P.World>, acts: seq<P.Act>)
    ensures P.Run(worlds, acts)
    ensures var last := worlds[|acts|].sessions;
      && last.Keys == {0, 1, 2, 3}
      && last[0].request == P.OpenRequest(Unsettled.CASH) && last[0].phase == P.Done(P.Opened)
      && last[1].request == P.OpenRequest(Unsettled.SALES) && last[1].phase == P.Done(P.Opened)
      && last[2].phase == P.Done(P.Created(0, Plain(Unsettled.SALE)))
      && last[3].phase == P.Done(P.Broken) && last[3].isolation == P.RepeatableRead
    ensures var q := SaleUnder(Unsettled.HASH, now);
      IsFresh(CHARTED, q) && IsTaken(CHARTED, q) && worlds[|acts|].db == DbOf(Entered(CHARTED, q))
  {
    hide Book.AtRest, Invariant.Drawable, ServedOpen, Matches, Leads, IsFresh, IsTaken, DbOf, Engine.KeyCheck, P.Run;
    ChartIsOpened(now);
    ChartsAreAtRest();
    SaleIsTaken(now);
    Unsettled.KeyShapes();
    EmptyMatches(Unsettled.UNDRAWN);
    var cash, sales := Opens(Unsettled.CASH, now, Acknowledged), Opens(Unsettled.SALES, now, Acknowledged);
    var b0 := Simple.Ledger(Book.EMPTY, Unsettled.UNDRAWN);
    var b1 := ServedOpen(b0, Unsettled.CASH, Acknowledged).0;
    var first, w1 := OneRequestIsOneSession(b0, cash, P.NOTHING, 0);
    var second, w2 := OneRequestIsOneSession(b1, sales, w1, 1);
    var q := SaleUnder(Unsettled.HASH, now);
    var third, w3 := RepeatableReadCanMiss(CHARTED, q, q, w2, 2, 3);
    LeadsOn(P.NOTHING, first, w1, second, w2);
    LeadsOn(P.NOTHING, first + second, w2, third, w3);
    acts := first + second + third;
    worlds := LeadsIsARun(P.NOTHING, acts, w3);
  }
}
