/** Whole transactions of the engine as sessions of the interleaved machine: every statement
    leads to acts that are enabled, and a history of commits to a world some interleaving
    reaches, whose legs are the book's postings. */
module SessionHistory {
  import opened Text
  import opened Book
  import opened Engine
  import opened Invariant
  import opened SessionWork
  import I = Isolation

  type World = I.World
  type Sid = I.Sid

  // ------------------------------------------------------------------ one and the other

  ghost predicate SeesLegs(w: World, seen: set<Sid>, base: Tables, id: nat)
    requires seen <= w.Keys
  {
    I.NetSeen(w, seen, id) == Net(Of(base.postings, id)) && I.CountSeen(w, seen, id) == |Of(base.postings, id)|
  }

  predicate Creates(w: World, seen: set<Sid>, id: nat)
    requires seen <= w.Keys
  {
    exists c | c in seen :: id in w[c].work.created
  }

  /** The committed sessions `seen` are the book `base`: its legs and its entries. */
  ghost predicate Stands(w: World, seen: set<Sid>, base: Tables) {
    && seen <= w.Keys && (forall c :: c in seen ==> I.IsCommitted(w, c))
    && (forall id: nat :: SeesLegs(w, seen, base, id))
    && (forall id: nat :: IsKnown(base, id) ==> Creates(w, seen, id))
  }

  ghost predicate SameSaves(base: Tables, mine: seq<Work>, saves: seq<Save>) {
    && |mine| == |saves|
    && forall i :: 0 <= i < |saves| ==> Begun(base, saves[i].state.tables) && mine[i] == WorkOf(base, saves[i].state)
  }

  /** Ids are drawn from the supply, so no session has one the supply has yet to give. */
  ghost predicate DrawnBelow(w: World, supply: nat) {
    forall c, id: nat :: c in w && I.Draws(w[c], id) ==> id < supply
  }

  /** The session `sid` is the transaction `s`, begun on the book `seen` stands for. */
  ghost predicate Mirrors(w: World, sid: Sid, seen: set<Sid>, base: Tables, s: Session) {
    && I.IsLive(w, sid) && Stands(w, seen, base) && Begun(base, s.state.tables)
    && w[sid].work == WorkOf(base, s.state) && SameSaves(base, w[sid].saves, s.saves)
    && DrawnBelow(w, s.supply.transaction)
  }

  // --------------------------------------------------------------------- frames

  lemma {:induction false} SeenSame(w: World, v: World, seen: set<Sid>, id: nat)
    requires seen <= w.Keys && seen <= v.Keys && forall c :: c in seen ==> w[c].work == v[c].work
    ensures I.NetSeen(w, seen, id) == I.NetSeen(v, seen, id) && I.CountSeen(w, seen, id) == I.CountSeen(v, seen, id)
    decreases |seen|
  {
    if seen == {} {
    } else {
      SeenSame(w, v, seen - {I.Pick(seen)}, id);
    }
  }

  lemma StandsStill(w: World, v: World, seen: set<Sid>, base: Tables)
    requires Stands(w, seen, base) && seen <= v.Keys && forall c :: c in seen ==> v[c] == w[c]
    ensures Stands(v, seen, base)
  {
    hide IsKnown;
    forall id: nat ensures SeesLegs(v, seen, base, id) {
      SeenSame(w, v, seen, id);
      assert SeesLegs(w, seen, base, id);
    }
    forall id: nat | IsKnown(base, id) ensures Creates(v, seen, id) {
      assert Creates(w, seen, id);
    }
  }

  /** Only the session itself has changed. */
  predicate OnlyIts(w: World, v: World, sid: Sid) {
    v.Keys == w.Keys + {sid} && forall c :: c in w && c != sid ==> v[c] == w[c]
  }

  lemma StandsAside(w: World, v: World, sid: Sid, seen: set<Sid>, base: Tables)
    requires Stands(w, seen, base) && OnlyIts(w, v, sid) && sid !in seen
    ensures Stands(v, seen, base)
  {
    hide Stands;
    assert seen <= w.Keys by { StandsGives(w, seen, base); }
    StandsStill(w, v, seen, base);
  }

  lemma StandsGives(w: World, seen: set<Sid>, base: Tables)
    requires Stands(w, seen, base)
    ensures seen <= w.Keys && forall c :: c in seen ==> I.IsCommitted(w, c)
  {
  }

  // --------------------------------------------------------------------- checks

  lemma KnownIsSeen(base: Tables, st: State, id: nat)
    requires Begun(base, st.tables) && IsKnown(st.tables, id)
    ensures id in WorkOf(base, st).created || IsKnown(base, id)
  {
    var x := FindTransaction(st.tables.transactions, id).value;
    var own := st.tables.transactions[|base.transactions|..];
    assert st.tables.transactions == base.transactions + own;
    assert x in base.transactions || x in own;
  }

  lemma CheckIsEnabled(w: World, sid: Sid, seen: set<Sid>, base: Tables, st: State, id: nat)
    requires I.IsLive(w, sid) && Stands(w, seen, base) && Begun(base, st.tables)
    requires w[sid].work.created == WorkOf(base, st).created && w[sid].work.legs == WorkOf(base, st).legs
    requires Balances(st.tables.postings, id) && IsKnown(st.tables, id)
    ensures I.Enabled(w, I.Check(sid, id, seen))
  {
    hide WorkOf, IsKnown, Of, Net, Balances;
    CheckIsOverBoth(base, st, id);
    KnownIsSeen(base, st, id);
    assert SeesLegs(w, seen, base, id);
    if id !in w[sid].work.created { assert Creates(w, seen, id); }
  }

  /** Every entry checked, one after another. */
  lemma {:induction false} ChecksLead(w: World, sid: Sid, seen: set<Sid>, base: Tables, st: State, ids: set<nat>)
    returns (acts: seq<I.Act>, after: World)
    requires I.IsLive(w, sid) && Stands(w, seen, base) && Begun(base, st.tables)
    requires w[sid].work.created == WorkOf(base, st).created && w[sid].work.legs == WorkOf(base, st).legs
    requires forall id :: id in ids ==> Balances(st.tables.postings, id) && IsKnown(st.tables, id)
    ensures I.Leads(w, acts, after)
    ensures after == I.WithWork(w, sid, w[sid].work.(owed := w[sid].work.owed - ids))
    decreases |ids|
  {
    hide WorkOf, IsKnown, Balances, Stands;
    if ids == {} {
      acts, after := [], w;
      assert w[sid].work.owed - ids == w[sid].work.owed;
      assert w[sid := w[sid]] == w;
    } else {
      var id :| id in ids;
      var check := I.Check(sid, id, seen);
      CheckIsEnabled(w, sid, seen, base, st, id);
      var mid := I.Do(w, check);
      I.OneAct(w, check);
      StandsGives(w, seen, base);
      StandsAside(w, mid, sid, seen, base);
      var more;
      more, after := ChecksLead(mid, sid, seen, base, st, ids - {id});
      I.LeadsOn(w, [check], mid, more, after);
      acts := [check] + more;
      assert w[sid].work.owed - {id} - (ids - {id}) == w[sid].work.owed - ids;
    }
  }

  // ------------------------------------------------------------------ one statement

  lemma MirrorsGives(w: World, sid: Sid, seen: set<Sid>, base: Tables, s: Session)
    requires Mirrors(w, sid, seen, base, s)
    ensures I.IsLive(w, sid) && sid !in seen && Stands(w, seen, base) && Begun(base, s.state.tables)
    ensures w[sid].work == WorkOf(base, s.state)
  {
  }

  lemma DrawsAside(w: World, v: World, sid: Sid, before: nat, after: nat)
    requires DrawnBelow(w, before) && before <= after && OnlyIts(w, v, sid)
    requires forall id: nat :: I.Draws(v[sid], id) ==> id < after
    ensures DrawnBelow(v, after)
  {
    hide I.Draws;
  }

  /** The row a statement writes. */
  lemma WriteLeads(w: World, sid: Sid, seen: set<Sid>, base: Tables, s: Session, q: Stmt, written: Work)
    returns (acts: seq<I.Act>, after: World)
    requires Mirrors(w, sid, seen, base, s) && Wrote(WorkOf(base, s.state), q, s.supply.transaction, written)
    requires q.InsertPosting? ==> IsKnown(s.state.tables, q.transaction)
    ensures I.Leads(w, acts, after) && after == I.WithWork(w, sid, written)
    ensures DrawnBelow(after, Drawn(s.supply, q).transaction)
  {
    hide WorkOf, Stands, SameSaves, IsKnown;
    MirrorsGives(w, sid, seen, base, s);
    if q.InsertTransaction? {
      var id := s.supply.transaction;
      var create := I.Create(sid, id);
      assert I.Unused(w, id);
      after := I.Do(w, create);
      I.OneAct(w, create);
      acts := [create];
    } else if q.InsertPosting? {
      var append := I.Append(sid, q.transaction, q.amount as int);
      KnownIsVisible(w, sid, seen, base, s.state, q.transaction);
      after := I.Do(w, append);
      I.OneAct(w, append);
      acts := [append];
    } else {
      acts, after := [], w;
      assert w[sid := w[sid]] == w;
    }
    forall id: nat | I.Draws(after[sid], id) ensures id < Drawn(s.supply, q).transaction {
      assert I.Draws(w[sid], id) || (q.InsertTransaction? && id == s.supply.transaction);
    }
    DrawsAside(w, after, sid, s.supply.transaction, Drawn(s.supply, q).transaction);
  }

  lemma KnownIsVisible(w: World, sid: Sid, seen: set<Sid>, base: Tables, st: State, id: nat)
    requires I.IsLive(w, sid) && Stands(w, seen, base) && Begun(base, st.tables)
    requires w[sid].work == WorkOf(base, st) && IsKnown(st.tables, id)
    ensures I.Visible(w, sid, id)
  {
    hide WorkOf, IsKnown, SeesLegs;
    KnownIsSeen(base, st, id);
    if id !in w[sid].work.created {
      assert Creates(w, seen, id);
      var c :| c in seen && id in w[c].work.created;
      assert I.IsCommitted(w, c) && id in w[c].work.created;
    }
  }

  /** A statement that is taken. */
  lemma OutcomeLeads(w: World, sid: Sid, seen: set<Sid>, base: Tables, s: Session, q: Stmt)
    returns (acts: seq<I.Act>, after: World)
    requires Valid(s) && !s.aborted && Mirrors(w, sid, seen, base, s)
    requires !(q.Savepoint? || q.RollbackTo? || q.Release?) && ExecOutcome(s, q).Ok?
    ensures I.Leads(w, acts, after) && OnlyIts(w, after, sid)
    ensures Mirrors(after, sid, seen, base, s.(state := ExecOutcome(s, q).state, supply := Drawn(s.supply, q)))
  {
    hide WorkOf, Stands, SameSaves, IsKnown, Valid, ExecOutcome, Balances, Wrote, I.Leads, Drawn;
    var st := ExecOutcome(s, q).state;
    var written := ExecIsAStep(base, s, q);
    WrittenIsKnown(s, q);
    MirrorsGives(w, sid, seen, base, s);
    var write, mid := WriteLeads(w, sid, seen, base, s, q, written);
    StandsAside(w, mid, sid, seen, base);
    var gone := written.owed - WorkOf(base, st).owed;
    OwedIsKnown(base, s, q, written, st);
    var checks;
    checks, after := ChecksLead(mid, sid, seen, base, st, gone);
    I.LeadsOn(w, write, mid, checks, after);
    acts := write + checks;
    StandsAside(w, after, sid, seen, base);
    assert written.owed - gone == WorkOf(base, st).owed;
    SameDraws(mid, after, sid, Drawn(s.supply, q).transaction);
  }

  lemma SameDraws(w: World, v: World, sid: Sid, supply: nat)
    requires DrawnBelow(w, supply) && sid in w && v.Keys == w.Keys && OnlyIts(w, v, sid)
    requires v[sid].work.created == w[sid].work.created && v[sid].saves == w[sid].saves
    ensures DrawnBelow(v, supply)
  {
    forall c, id: nat | c in v && I.Draws(v[c], id) ensures id < supply { assert I.Draws(w[c], id); }
  }

  lemma OwedIsKnown(base: Tables, s: Session, q: Stmt, written: Work, st: State)
    requires Begun(base, s.state.tables) && Begun(base, st.tables)
    requires Wrote(WorkOf(base, s.state), q, s.supply.transaction, written)
    requires Checked(written, WorkOf(base, st), st.tables)
    requires forall id :: id in Owed(s.state.pending) ==> IsKnown(st.tables, id)
    requires q.InsertTransaction? ==> IsKnown(st.tables, s.supply.transaction)
    requires q.InsertPosting? ==> IsKnown(st.tables, q.transaction)
    ensures forall id :: id in written.owed - WorkOf(base, st).owed ==>
      Balances(st.tables.postings, id) && IsKnown(st.tables, id)
  {
    hide Owed, IsKnown, Balances, IdsOf, LegsOf;
  }

  /** A savepoint, a rollback to one and a release. */
  lemma SavepointLeads(w: World, sid: Sid, seen: set<Sid>, base: Tables, s: Session, q: Stmt)
    returns (acts: seq<I.Act>, after: World)
    requires Mirrors(w, sid, seen, base, s) && (q.Savepoint? || q.RollbackTo? || q.Release?)
    ensures I.Leads(w, acts, after) && OnlyIts(w, after, sid) && Mirrors(after, sid, seen, base, Exec(s, q).0)
  {
    hide WorkOf, Stands, I.Leads, Begun, IsKnown;
    MirrorsGives(w, sid, seen, base, s);
    var innermost := Innermost(s.saves, q.name);
    var depth := if innermost.Some? then innermost.value else 0;
    var act := if q.Savepoint? then I.Save(sid) else if q.RollbackTo? then I.Restore(sid, depth)
      else I.Release(sid, depth);
    if if q.Savepoint? then !s.aborted else innermost.Some? && (q.RollbackTo? || !s.aborted) {
      after := I.Do(w, act);
      I.OneAct(w, act);
      acts := [act];
    } else {
      acts, after := [], w;
      NoActs(w);
    }
    forall id: nat | I.Draws(after[sid], id) ensures id < s.supply.transaction { assert I.Draws(w[sid], id); }
    DrawsAside(w, after, sid, s.supply.transaction, s.supply.transaction);
    StandsAside(w, after, sid, seen, base);
  }

  lemma NoActs(w: World)
    ensures I.Leads(w, [], w)
  {
  }

  /** Any statement at all, taken or refused, in a transaction aborted or not. */
  lemma ExecLeads(w: World, sid: Sid, seen: set<Sid>, base: Tables, s: Session, q: Stmt)
    returns (acts: seq<I.Act>, after: World)
    requires Valid(s) && Mirrors(w, sid, seen, base, s)
    ensures I.Leads(w, acts, after) && OnlyIts(w, after, sid) && Mirrors(after, sid, seen, base, Exec(s, q).0)
  {
    hide WorkOf, Stands, SameSaves, I.Leads, Begun, ExecOutcome, Valid, Innermost;
    MirrorsGives(w, sid, seen, base, s);
    if q.Savepoint? || q.RollbackTo? || q.Release? {
      acts, after := SavepointLeads(w, sid, seen, base, s, q);
    } else if !s.aborted && ExecOutcome(s, q).Ok? {
      acts, after := OutcomeLeads(w, sid, seen, base, s, q);
    } else {
      acts, after := [], w;
      NoActs(w);
    }
  }

  /** A whole run of statements. */
  lemma {:induction false} RunLeads(w: World, sid: Sid, seen: set<Sid>, base: Tables, s: Session, qs: seq<Stmt>)
    returns (acts: seq<I.Act>, after: World)
    requires Valid(s) && Mirrors(w, sid, seen, base, s)
    ensures I.Leads(w, acts, after) && OnlyIts(w, after, sid) && Mirrors(after, sid, seen, base, Run(s, qs))
    decreases |qs|
  {
    hide Valid, Mirrors, Exec, I.Leads, WorkOf, Stands;
    if qs == [] {
      acts, after := [], w;
      NoActs(w);
      MirrorsGives(w, sid, seen, base, s);
    } else {
      var mid, more;
      acts, mid := RunLeads(w, sid, seen, base, s, qs[..|qs| - 1]);
      RunKeeps(s, qs[..|qs| - 1]);
      more, after := ExecLeads(mid, sid, seen, base, Run(s, qs[..|qs| - 1]), qs[|qs| - 1]);
      I.LeadsOn(w, acts, mid, more, after);
      acts := acts + more;
    }
  }

  /** What another session does leaves this one as it was, so transactions of the engine
      may be interleaved in any way: only the ids the others drew are spent. */
  lemma OthersLeaveIt(w: World, v: World, sid: Sid, other: Sid, seen: set<Sid>, base: Tables, s: Session,
      supply: Supply)
    requires Mirrors(w, sid, seen, base, s) && other != sid && other !in seen && OnlyIts(w, v, other)
    requires DrawnBelow(v, supply.transaction)
    ensures Mirrors(v, sid, seen, base, s.(supply := supply))
  {
    hide Stands, WorkOf, SameSaves;
    StandsAside(w, v, other, seen, base);
  }

  // ------------------------------------------------------- its beginning and its end

  lemma BeginLeads(w: World, sid: Sid, seen: set<Sid>, t: Tables, supply: Supply, now: int) returns (after: World)
    requires Stands(w, seen, t) && sid !in w && DrawnBelow(w, supply.transaction)
    ensures I.Leads(w, [I.Begin(sid)], after) && OnlyIts(w, after, sid)
    ensures Mirrors(after, sid, seen, t, Begin(t, supply, now))
  {
    hide Stands, IsKnown;
    StandsGives(w, seen, t);
    after := I.Do(w, I.Begin(sid));
    I.OneAct(w, I.Begin(sid));
    StandsAside(w, after, sid, seen, t);
    assert t.transactions[|t.transactions|..] == [] && t.postings[|t.postings|..] == [];
    assert WorkOf(t, State(t, [], {})) == I.Work({}, [], {});
    DrawsAside(w, after, sid, supply.transaction, supply.transaction);
  }

  /** One more committed session adds its own legs. */
  lemma {:induction false} OneMoreSeen(w: World, seen: set<Sid>, sid: Sid, id: nat)
    requires seen <= w.Keys && sid in seen
    ensures I.NetSeen(w, seen, id) == I.NetOf(w[sid].work.legs, id) + I.NetSeen(w, seen - {sid}, id)
    ensures I.CountSeen(w, seen, id) == I.CountOf(w[sid].work.legs, id) + I.CountSeen(w, seen - {sid}, id)
    decreases |seen|
  {
    hide I.NetOf, I.CountOf;
    var first := I.Pick(seen);
    if first == sid {
    } else {
      OneMoreSeen(w, seen - {first}, sid, id);
      OneMoreSeen(w, seen - {sid}, first, id);
      assert seen - {first} - {sid} == seen - {sid} - {first};
    }
  }

  /** With a session's work committed, the book is its base and what it wrote. */
  lemma StandsWithIt(w: World, sid: Sid, seen: set<Sid>, base: Tables, st: State)
    requires Stands(w, seen, base) && I.IsCommitted(w, sid) && sid !in seen && Begun(base, st.tables)
    requires w[sid].work.created == WorkOf(base, st).created && w[sid].work.legs == WorkOf(base, st).legs
    ensures Stands(w, seen + {sid}, st.tables)
  {
    hide WorkOf, IsKnown;
    var all := seen + {sid};
    assert all - {sid} == seen;
    forall id: nat ensures SeesLegs(w, all, st.tables, id) {
      OneMoreSeen(w, all, sid, id);
      assert SeesLegs(w, seen, base, id);
      BothLegs(base, st, id);
    }
    forall id: nat | IsKnown(st.tables, id) ensures Creates(w, all, id) {
      KnownIsSeen(base, st, id);
      if id !in w[sid].work.created {
        assert Creates(w, seen, id);
        var c :| c in seen && id in w[c].work.created;
        assert c in all;
      }
    }
  }

  lemma BothLegs(base: Tables, st: State, id: nat)
    requires Begun(base, st.tables)
    ensures var legs := WorkOf(base, st).legs;
      Net(Of(st.tables.postings, id)) == I.NetOf(legs, id) + Net(Of(base.postings, id))
      && |Of(st.tables.postings, id)| == I.CountOf(legs, id) + |Of(base.postings, id)|
  {
    var own := st.tables.postings[|base.postings|..];
    assert st.tables.postings == base.postings + own;
    OfConcat(base.postings, own, id);
    NetConcat(Of(base.postings, id), Of(own, id));
    OfLegs(own, id);
  }

  /** A commit that is taken: the checks still owed, and then the commit. */
  lemma CommitLeads(w: World, sid: Sid, seen: set<Sid>, base: Tables, s: Session)
    returns (acts: seq<I.Act>, after: World)
    requires Valid(s) && Mirrors(w, sid, seen, base, s) && Commit(s).Ok?
    ensures I.Leads(w, acts, after) && OnlyIts(w, after, sid) && I.IsCommitted(after, sid)
    ensures Stands(after, seen + {sid}, Commit(s).state.tables) && DrawnBelow(after, s.supply.transaction)
  {
    hide WorkOf, IsKnown, Balances, Stands, Valid, SameSaves, I.Leads, Commit;
    MirrorsGives(w, sid, seen, base, s);
    var owed := w[sid].work.owed;
    OwedAtCommit(base, s);
    var checks, mid := ChecksLead(w, sid, seen, base, s.state, owed);
    assert mid[sid].work.owed == {};
    after := I.Do(mid, I.Commit(sid));
    I.OneAct(mid, I.Commit(sid));
    I.LeadsOn(w, checks, mid, [I.Commit(sid)], after);
    acts := checks + [I.Commit(sid)];
    StandsAside(w, after, sid, seen, base);
    StandsWithIt(after, sid, seen, base, s.state);
    SameRows(after, seen + {sid}, s.state.tables, Commit(s).state.tables);
    SameDraws(w, after, sid, s.supply.transaction);
  }

  lemma OwedAtCommit(base: Tables, s: Session)
    requires Valid(s) && Begun(base, s.state.tables) && Commit(s).Ok?
    ensures forall id :: id in WorkOf(base, s.state).owed ==>
      Balances(s.state.tables.postings, id) && IsKnown(s.state.tables, id)
    ensures Commit(s).state.tables.transactions == s.state.tables.transactions
    ensures Commit(s).state.tables.postings == s.state.tables.postings
  {
    hide WellFormed, Balances;
    CommitMeans(s);
    ValidGives(s);
    forall id | id in Owed(s.state.pending)
      ensures Balances(s.state.tables.postings, id) && IsKnown(s.state.tables, id)
    {
      var e :| e in s.state.pending && !e.KeyWritten? && e.id == id;
      assert e == TransactionWritten(id) || e == CheckQueued(id);
      assert FindTransaction(s.state.tables.transactions, id).value in s.state.tables.transactions;
    }
  }

  lemma SameRows(w: World, seen: set<Sid>, t: Tables, u: Tables)
    requires Stands(w, seen, t) && t.transactions == u.transactions && t.postings == u.postings
    ensures Stands(w, seen, u)
  {
    hide Creates;
    forall id: nat ensures SeesLegs(w, seen, u, id) { assert SeesLegs(w, seen, t, id); }
  }

  lemma LeaveLeads(w: World, sid: Sid, seen: set<Sid>, base: Tables, s: Session) returns (after: World)
    requires Mirrors(w, sid, seen, base, s)
    ensures I.Leads(w, [I.Leave(sid)], after) && OnlyIts(w, after, sid)
    ensures Stands(after, seen, base) && DrawnBelow(after, s.supply.transaction)
  {
    hide WorkOf, Stands;
    MirrorsGives(w, sid, seen, base, s);
    after := I.Do(w, I.Leave(sid));
    I.OneAct(w, I.Leave(sid));
    StandsAside(w, after, sid, seen, base);
    SameDraws(w, after, sid, s.supply.transaction);
  }

  // ------------------------------------------------------------------ a whole history

  datatype Transacted = Transacted(stmts: seq<Stmt>, now: int)

  /** The book and the supply one transaction leaves, committed or rolled back. */
  function AfterOne(t: Tables, supply: Supply, tx: Transacted): (Tables, Supply) {
    var s := Run(Begin(t, supply, tx.now), tx.stmts);
    (if Commit(s).Ok? then Commit(s).state.tables else t, s.supply)
  }

  /** The book after any transactions, one after another, from an empty ledger. */
  function BookAfter(txs: seq<Transacted>): (Tables, Supply) {
    if txs == [] then (EMPTY, Supply(0, 0, 0))
    else
      var (t, supply) := BookAfter(txs[..|txs| - 1]);
      AfterOne(t, supply, txs[|txs| - 1])
  }

  predicate NoLess(a: Supply, b: Supply) {
    a.account <= b.account && a.transaction <= b.transaction && a.posting <= b.posting
  }

  lemma ExecDraws(s: Session, q: Stmt)
    ensures NoLess(s.supply, Exec(s, q).0.supply)
  {
    hide ExecOutcome, Innermost;
  }

  lemma {:induction false} SupplyGrows(s: Session, qs: seq<Stmt>)
    ensures NoLess(s.supply, Run(s, qs).supply)
  {
    hide Exec;
    if qs == [] {
    } else {
      SupplyGrows(s, qs[..|qs| - 1]);
      ExecDraws(Run(s, qs[..|qs| - 1]), qs[|qs| - 1]);
    }
  }

  lemma OneRests(t: Tables, supply: Supply, tx: Transacted)
    requires AtRest(t) && Drawable(t, supply)
    ensures AtRest(AfterOne(t, supply, tx).0) && Drawable(AfterOne(t, supply, tx).0, AfterOne(t, supply, tx).1)
    ensures Valid(Run(Begin(t, supply, tx.now), tx.stmts))
  {
    hide AtRest, Run, Commit, Accounted, RowPerCheck, PendingNamed, KeysAccounted, WellFormed;
    var s := Run(Begin(t, supply, tx.now), tx.stmts);
    BeginIsValid(t, supply, tx.now);
    RunKeeps(Begin(t, supply, tx.now), tx.stmts);
    CommitMeans(s);
    SupplyGrows(Begin(t, supply, tx.now), tx.stmts);
    assert Drawable(s.state.tables, s.supply);
  }

  lemma EmptyRests()
    ensures AtRest(EMPTY) && Drawable(EMPTY, Supply(0, 0, 0))
    ensures Stands(map[], {}, EMPTY) && DrawnBelow(map[], 0) && I.Reached([], map[])
  {
    forall id: nat ensures SeesLegs(map[], {}, EMPTY, id) {}
  }

  /** One more transaction, whatever it sends and however it ends. */
  lemma OneLeads(w: World, sid: Sid, seen: set<Sid>, t: Tables, supply: Supply, tx: Transacted)
    returns (acts: seq<I.Act>, after: World, committed: set<Sid>)
    requires AtRest(t) && Drawable(t, supply) && Stands(w, seen, t) && sid !in w && DrawnBelow(w, supply.transaction)
    ensures I.Leads(w, acts, after) && OnlyIts(w, after, sid)
    ensures Stands(after, committed, AfterOne(t, supply, tx).0)
    ensures DrawnBelow(after, AfterOne(t, supply, tx).1.transaction)
  {
    hide AtRest, Drawable, Stands, DrawnBelow, Mirrors, I.Leads, Run, Commit, Valid;
    var s := Begin(t, supply, tx.now);
    OneRests(t, supply, tx);
    BeginIsValid(t, supply, tx.now);
    var w1 := BeginLeads(w, sid, seen, t, supply, tx.now);
    var run, w2 := RunLeads(w1, sid, seen, t, s, tx.stmts);
    I.LeadsOn(w, [I.Begin(sid)], w1, run, w2);
    var end;
    if Commit(Run(s, tx.stmts)).Ok? {
      end, after := CommitLeads(w2, sid, seen, t, Run(s, tx.stmts));
      committed := seen + {sid};
    } else {
      after := LeaveLeads(w2, sid, seen, t, Run(s, tx.stmts));
      end, committed := [I.Leave(sid)], seen;
    }
    I.LeadsOn(w, [I.Begin(sid)] + run, w2, end, after);
    acts := [I.Begin(sid)] + run + end;
  }

  /** Any history of transactions, of any statements, committed or not, reaches a world of the
      interleaved machine whose committed sessions hold exactly the book's legs: what is
      proved of every reached world holds of every book. */
  lemma {:induction false} HistoryIsReached(txs: seq<Transacted>)
    returns (acts: seq<I.Act>, w: World, seen: set<Sid>)
    ensures I.Reached(acts, w) && Stands(w, seen, BookAfter(txs).0)
    ensures DrawnBelow(w, BookAfter(txs).1.transaction) && forall c :: c in w ==> c < |txs|
    ensures AtRest(BookAfter(txs).0) && Drawable(BookAfter(txs).0, BookAfter(txs).1)
    decreases |txs|
  {
    hide AtRest, Drawable, Stands, DrawnBelow, I.Reached, I.Leads, AfterOne;
    if txs == [] {
      acts, w, seen := [], map[], {};
      EmptyRests();
    } else {
      var front := txs[..|txs| - 1];
      var (t, supply) := BookAfter(front);
      var w1, seen1, more;
      acts, w1, seen1 := HistoryIsReached(front);
      more, w, seen := OneLeads(w1, |front|, seen1, t, supply, txs[|txs| - 1]);
      OneRests(t, supply, txs[|txs| - 1]);
      I.ReachedOn(acts, w1, more, w);
      acts := acts + more;
    }
  }
}
