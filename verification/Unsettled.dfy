/** What an earlier call leaves unsettled refuses a later one that is sound: the verdicts of
    `Post` and of `Once` in full, and a transaction that shows each refusal. */
module Unsettled {
  import opened Text
  import opened Book
  import opened Engine
  import opened Invariant
  import opened Simple
  import LedgerCalls
  import Naive
  import PostProof
  import Reversal
  import Server

  // ------------------------------------------------------------- Once, in full

  ghost predicate IsFree(t: Tables, c: Claim) { KeyCheck(c.key, c.hash).None? && c.key !in t.keys }

  /** A claim of a free key to post one entry is recorded exactly when the entry breaks no
      rule, every entry of the book balances and every other key is settled; and it is
      refused for the other keys exactly when they are all that is wrong. */
  lemma ClaimIsRecorded(b: Ledger, c: Claim, e: Entry, now: int)
    requires IsFree(b.tables, c)
    ensures var r := Simple.Once(b, c, Server.TheWrite(e), now).1;
      var sound := Reversal.IsSound(b.tables.accounts, e) && BookBalances(b.tables);
      && (r.Recorded? <==> sound && KeysSettled(b.tables))
      && (r == Turned(OthersUnsettled) <==> sound && !KeysSettled(b.tables))
  {
    hide KeyCheck, Simple.Post, KeysSettled, BookBalances, Reversal.IsSound, PostVerdict, FindTransaction;
    var reserved := b.(tables := WithKey(b.tables, c.key, KeyRow(c.hash, None)));
    Server.OneCall(reserved, e, now);
    PostAnswers(reserved, e, now);
    Reversal.VerdictIsTheEntrys(reserved.tables, e);
    Server.KeyAside(b.tables, c.key, KeyRow(c.hash, None));
  }

  lemma PostAnswers(b: Ledger, e: Entry, now: int)
    ensures var (after, r) := Simple.Post(b, e, now);
      && (r.Posted? <==> PostVerdict(b.tables, e).None?)
      && (r.Posted? ==> FindTransaction(after.tables.transactions, r.id).Some?)
  {
    var (after, r) := Simple.Post(b, e, now);
    if r.Posted? { assert Header(e, r.id, now) in after.tables.transactions; }
  }

  // ------------------------------------------------------------- whose check raises

  /** The transaction once every leg of an entry is in, and what is then asked. */
  ghost function Full(s: Session, e: Entry): State
    requires Resolved(s.state.tables.accounts, e.legs[..|e.legs|])
  {
    LedgerCalls.InPart(s, e, |e.legs|).state
  }

  function Asked(s: Session): set<Constraint> { s.state.immediate + BALANCE_CONSTRAINTS }

  lemma FullIsValid(s: Session, e: Entry)
    requires Naive.Sends(s, e, |e.legs|)
    ensures Resolved(s.state.tables.accounts, e.legs) && Resolved(s.state.tables.accounts, e.legs[..|e.legs|])
    ensures Valid(LedgerCalls.InPart(s, e, |e.legs|))
  {
    hide Valid, LedgerCalls.InPart, Run, Exec;
    Naive.QueuedEntry(s, e, |e.legs|);
    RunKeeps(s, Naive.EntrySent(e, s.supply.transaction, |e.legs|));
    assert e.legs[..|e.legs|] == e.legs;
  }

  lemma FullHolds(s: Session, e: Entry)
    requires Resolved(s.state.tables.accounts, e.legs[..|e.legs|])
    ensures var full := Full(s, e); var own := [TransactionWritten(s.supply.transaction)]
        + (if e.legs == [] then [] else [CheckQueued(s.supply.transaction)]);
      && full.pending == s.state.pending + own
      && full.immediate + BALANCE_CONSTRAINTS == Asked(s)
      && LedgerCalls.InPart(s, e, |e.legs|).aborted == s.aborted
      && full.tables.postings == s.state.tables.postings
           + LegRows(s.state.tables.accounts, s.supply.transaction, s.supply.posting, e.legs[..|e.legs|])
  {
    assert (s.state.immediate - BALANCE_CONSTRAINTS) + BALANCE_CONSTRAINTS == Asked(s);
  }

  /** An event queued before the entry passes or not as it did. */
  lemma EarlierAsBefore(s: Session, e: Entry, earlier: Event)
    requires Valid(s) && Resolved(s.state.tables.accounts, e.legs)
    requires Resolved(s.state.tables.accounts, e.legs[..|e.legs|])
    requires earlier in s.state.pending && !earlier.KeyWritten?
    ensures earlier.id != s.supply.transaction
    ensures Passes(Full(s, e).tables, earlier) <==> Balances(s.state.tables.postings, earlier.id)
    ensures FindTransaction(s.state.tables.transactions, earlier.id).Some?
  {
    hide Valid;
    ValidGives(s);
    FullHolds(s, e);
    assert e.legs[..|e.legs|] == e.legs;
    assert earlier == TransactionWritten(earlier.id) || earlier == CheckQueued(earlier.id);
    PostProof.EnteredLegs(s.state.tables, e, s.supply.transaction, s.supply.posting, earlier.id);
  }

  /** What was queued before the entry fails exactly where the book did not balance. */
  lemma EarlierFails(s: Session, e: Entry)
    requires Valid(s) && Resolved(s.state.tables.accounts, e.legs)
    requires Resolved(s.state.tables.accounts, e.legs[..|e.legs|])
    ensures var r := FirstFailing(Full(s, e).tables, s.state.pending, Asked(s));
      && (r.Some? <==> !BookBalances(s.state.tables))
      && (r.Some? ==> !r.value.KeyWritten? && r.value.id != s.supply.transaction)
  {
    hide Valid, Full, Balances;
    ValidGives(s);
    var t := s.state.tables;
    var r := FirstFailing(Full(s, e).tables, s.state.pending, Asked(s));
    if r.Some? {
      assert !r.value.KeyWritten?;
      EarlierAsBefore(s, e, r.value);
      assert FindTransaction(t.transactions, r.value.id).value in t.transactions;
    }
    if !BookBalances(t) {
      var x :| x in t.transactions && !Balances(t.postings, x.id);
      var owed := if TransactionWritten(x.id) in s.state.pending then TransactionWritten(x.id) else CheckQueued(x.id);
      EarlierAsBefore(s, e, owed);
    }
  }

  /** Where a settle refuses an entry whose legs are all in, the check that raises is the
      entry's own exactly when the book balanced before it. Then the net the refusal carries
      is the one that check found; otherwise an earlier entry's check raised, and the
      refusal carries this entry's net all the same. */
  lemma RaisedForItself(s: Session, e: Entry)
    requires Naive.Sends(s, e, |e.legs|)
    ensures Resolved(s.state.tables.accounts, e.legs[..|e.legs|])
    ensures
      var full, verdict := LedgerCalls.InPart(s, e, |e.legs|), PostVerdict(s.state.tables, e);
      var raiser := FirstFailing(full.state.tables, full.state.pending, Asked(s));
      && (raiser.Some? <==> verdict.Some?)
      && (raiser.Some? ==>
            && Exec(full, SetConstraints(BALANCE_CONSTRAINTS, true)).1 == Raised(RaisedBy(raiser.value))
            && verdict.value == Unbalanced(Sum(e.legs), |e.legs|)
            && !raiser.value.KeyWritten?
            && (raiser.value.id == s.supply.transaction <==> BookBalances(s.state.tables))
            && (BookBalances(s.state.tables) ==>
                  verdict.value == Unbalanced(Net(Of(full.state.tables.postings, raiser.value.id)),
                                              |Of(full.state.tables.postings, raiser.value.id)|)))
  {
    hide Valid, LegFault, TransactionCheck, BookBalances, Of, Net, Sum, LedgerCalls.InPart, Exec;
    FullIsValid(s, e);
    var full := LedgerCalls.InPart(s, e, |e.legs|);
    var own := [TransactionWritten(s.supply.transaction)]
      + (if e.legs == [] then [] else [CheckQueued(s.supply.transaction)]);
    FullHolds(s, e);
    EarlierFails(s, e);
    FailsInOrder(full.state.tables, s.state.pending, own, Asked(s));
    SettleRaises(s, e);
    OwnNet(s, e);
  }

  lemma SettleRaises(s: Session, e: Entry)
    requires Naive.Sends(s, e, |e.legs|) && Resolved(s.state.tables.accounts, e.legs)
    requires Resolved(s.state.tables.accounts, e.legs[..|e.legs|]) && Valid(LedgerCalls.InPart(s, e, |e.legs|))
    ensures
      var full, verdict := LedgerCalls.InPart(s, e, |e.legs|), PostVerdict(s.state.tables, e);
      var raiser := FirstFailing(full.state.tables, full.state.pending, Asked(s));
      && (raiser.Some? <==> verdict.Some?)
      && (raiser.Some? ==> verdict.value == Unbalanced(Sum(e.legs), |e.legs|))
      && (raiser.Some? ==> Exec(full, SetConstraints(BALANCE_CONSTRAINTS, true)).1 == Raised(RaisedBy(raiser.value)))
  {
    hide Valid, LegFault, TransactionCheck, BookBalances, Sum, LedgerCalls.InPart, Exec;
    var full := LedgerCalls.InPart(s, e, |e.legs|);
    FullHolds(s, e);
    LedgerCalls.SumAsked(s, e);
    LedgerCalls.ConstraintsSent(full, BALANCE_CONSTRAINTS, true);
    FireRaisesFirst(full.state.tables, full.state.pending, Asked(s));
  }

  lemma OwnNet(s: Session, e: Entry)
    requires Valid(s) && Resolved(s.state.tables.accounts, e.legs)
    requires Resolved(s.state.tables.accounts, e.legs[..|e.legs|])
    ensures var written := Of(Full(s, e).tables.postings, s.supply.transaction);
      Net(written) == Sum(e.legs) && |written| == |e.legs|
  {
    hide Valid, Of, Net, Sum;
    ValidGives(s);
    FullHolds(s, e);
    assert e.legs[..|e.legs|] == e.legs;
    Reversal.LoopIsTrigger(s.state.tables, e, s.supply.transaction, s.supply.posting);
  }

  // ------------------------------------------------------------------ a small book

  const CASH := AccountRequest("cash", "Cash", "asset", "USD")
  const SALES := AccountRequest("sales", "Sales", "revenue", "USD")
  const SALE := Entry("USD", "A sale", [Leg("cash", 5), Leg("sales", -5)], None)
  const KEY := "0123456789abcdef"
  const OTHER_KEY := "fedcba9876543210"
  const HASH: Digest := seq(32, _ => 0)
  const UNDRAWN := Supply(0, 0, 0)

  lemma IsWords(s: string, most: nat)
    requires s != "" && |s| <= most && !IsSpace(s[0]) && forall c :: c in s ==> !IsControl(c)
    ensures WordsShape(s, most)
  {
    assert s[0] in s;
  }

  lemma CodeShapes()
    ensures CodeShape(CASH.code) && CodeShape(SALES.code) && CurrencyShape("USD")
  {
  }

  lemma Shapes()
    ensures AccountCheck(CASH.code, CASH.name, CASH.currency).None? && KindOf(CASH.kind) == Some(Asset)
    ensures AccountCheck(SALES.code, SALES.name, SALES.currency).None? && KindOf(SALES.kind) == Some(Revenue)
    ensures TransactionCheck(SALE.currency, SALE.description).None?
  {
    hide CodeShape, CurrencyShape, WordsShape;
    CodeShapes();
    IsWords(CASH.name, 100);
    IsWords(SALES.name, 100);
    IsWords(SALE.description, 500);
  }

  lemma KeyShapes()
    ensures KeyCheck(KEY, HASH).None? && KeyCheck(OTHER_KEY, HASH).None? && KEY != OTHER_KEY
  {
    assert KEY[0] != OTHER_KEY[0];
  }

  function Chart(): seq<Account> {
    [Account(0, "cash", "Cash", Asset, "USD"), Account(1, "sales", "Sales", Revenue, "USD")]
  }

  lemma SaleIsSound()
    ensures Reversal.IsSound(Chart(), SALE)
  {
    Shapes();
    assert SALE.legs[..1] == [SALE.legs[0]] && SALE.legs[..1][..0] == [];
    assert Sum(SALE.legs[..1]) == 5;
    assert FindAccount(Chart(), "cash") == Some(Chart()[0]);
    assert Chart()[1..] == [Chart()[1]];
    assert FindAccount(Chart(), "sales") == Some(Chart()[1]);
  }

  // ------------------------------------------------------------------ the refusals

  const OPENING: seq<Stmt> :=
    [InsertAccount(CASH.code, CASH.name, CASH.kind, CASH.currency),
     InsertAccount(SALES.code, SALES.name, SALES.kind, SALES.currency)]

  lemma Opened(now: int)
    ensures Run(Begin(EMPTY, UNDRAWN, now), OPENING) ==
      Session(State(EMPTY.(accounts := Chart()), [], {}), [], false, Supply(2, 0, 0), now)
  {
    hide AccountCheck, KindOf;
    Shapes();
    var s0 := Begin(EMPTY, UNDRAWN, now);
    var s1 := Exec(s0, OPENING[0]).0;
    assert OPENING[..1] == [OPENING[0]] && OPENING[..1][..0] == [];
    assert Run(s0, OPENING[..1]) == s1;
    assert s1 == Session(State(EMPTY.(accounts := Chart()[..1]), [], {}), [], false, Supply(1, 0, 0), now);
    assert Chart()[..1][1..] == [];
    assert FindAccount(Chart()[..1], "sales").None?;
    assert Chart()[..1] + [Chart()[1]] == Chart();
  }

  /** The session after one more statement. */
  lemma RunOne(s: Session, qs: seq<Stmt>, q: Stmt)
    ensures Run(s, qs + [q]) == Exec(Run(s, qs), q).0
  {
    assert (qs + [q])[..|qs|] == qs;
  }

  const LATER := InsertTransaction("USD", "A sale", None)

  /** A transaction row still waiting for its legs refuses an entry that is sound, and which
      the same transaction takes without it. */
  lemma UnfinishedEntryRefusesPost(now: int)
    ensures var s := Run(Begin(EMPTY, UNDRAWN, now), OPENING);
      Reversal.IsSound(s.state.tables.accounts, SALE) && Simple.Post(LedgerCalls.LedgerOf(s), SALE, now).1.Posted?
    ensures var s := Run(Begin(EMPTY, UNDRAWN, now), OPENING + [LATER]);
      && Valid(s) && !s.aborted && Reversal.IsSound(s.state.tables.accounts, SALE)
      && Simple.Post(LedgerCalls.LedgerOf(s), SALE, now).1 == Refused(Unbalanced(0, 2))
  {
    Opened(now);
    SaleIsSound();
    var s := Run(Begin(EMPTY, UNDRAWN, now), OPENING);
    PostAnswers(LedgerCalls.LedgerOf(s), SALE, now);
    Reversal.VerdictIsTheEntrys(s.state.tables, SALE);
    RunOne(Begin(EMPTY, UNDRAWN, now), OPENING, LATER);
    RunIsValid(now, OPENING + [LATER]);
    var later := Exec(s, LATER).0;
    WaitsForLegs(s, now);
    RefusedAsUnbalanced(later.state.tables, SALE);
  }

  lemma RunIsValid(now: int, qs: seq<Stmt>)
    ensures Valid(Run(Begin(EMPTY, UNDRAWN, now), qs))
  {
    BeginIsValid(EMPTY, UNDRAWN, now);
    RunKeeps(Begin(EMPTY, UNDRAWN, now), qs);
  }

  lemma WaitsForLegs(s: Session, now: int)
    requires s == Session(State(EMPTY.(accounts := Chart()), [], {}), [], false, Supply(2, 0, 0), now)
    ensures var later := Exec(s, LATER).0;
      && !later.aborted && later.state.tables.accounts == Chart() && !BookBalances(later.state.tables)
      && later.state.pending == [TransactionWritten(0)] && later.state.tables.postings == []
      && later.supply.transaction == 1
  {
    hide TransactionCheck;
    Shapes();
    var row := Transaction(0, "USD", "A sale", now);
    var written := State(EMPTY.(accounts := Chart(), transactions := [row]), [TransactionWritten(0)], {});
    PostProof.QuietSettle(written);
    assert [] + [row] == [row] && [] + [TransactionWritten(0)] == [TransactionWritten(0)];
    assert row in written.tables.transactions && !Balances([], 0);
  }

  lemma WaitsForResult(s: Session, now: int)
    requires s == Session(State(EMPTY.(accounts := Chart()), [], {}), [], false, Supply(2, 0, 0), now) && Valid(s)
    ensures var later := Exec(s, InsertKey(KEY, HASH)).0;
      later == s.(state := WriteKey(s.state, KEY, KeyRow(HASH, None))) &&
        later.state.tables.keys == map[KEY := KeyRow(HASH, None)]
  {
    hide Valid, KeyCheck;
    KeyShapes();
    LedgerCalls.KeySent(s, Claim(KEY, HASH));
  }

  /** Of a sound entry, what is refused is the book. */
  lemma RefusedAsUnbalanced(t: Tables, e: Entry)
    requires Reversal.IsSound(t.accounts, e) && !BookBalances(t)
    ensures PostVerdict(t, e) == Some(Unbalanced(0, |e.legs|))
  {
    var balanced := t.(transactions := []);
    Reversal.VerdictIsTheEntrys(balanced, e);
  }

  lemma SoundIsSent(s: Session, e: Entry)
    requires Valid(s) && !s.aborted && Reversal.IsSound(s.state.tables.accounts, e)
    ensures Naive.Sends(s, e, |e.legs|)
  {
    hide Valid;
    forall i | 0 <= i < |e.legs| ensures LegFault(s.state.tables.accounts, e.currency, e.legs[i], i).None? {
      assert Reversal.HeldInCurrency(s.state.tables.accounts, e.legs[i], e.currency);
    }
  }

  /** There the check that raises is the other row's, which has no postings at all, while
      the refusal speaks of two that net to zero. */
  lemma EarlierEntryRaises(now: int)
    ensures var s := Run(Begin(EMPTY, UNDRAWN, now), OPENING + [LATER]);
      && Naive.Sends(s, SALE, |SALE.legs|) && Resolved(s.state.tables.accounts, SALE.legs[..|SALE.legs|])
      && var full := Full(s, SALE);
         && FirstFailing(full.tables, full.pending, Asked(s)) == Some(TransactionWritten(0))
         && s.supply.transaction == 1 && Of(full.tables.postings, 0) == []
         && PostVerdict(s.state.tables, SALE) == Some(Unbalanced(0, 2))
  {
    hide Valid, Full, Run, Exec, Reversal.IsSound, Of, PostVerdict;
    Opened(now);
    SaleIsSound();
    RunOne(Begin(EMPTY, UNDRAWN, now), OPENING, LATER);
    RunIsValid(now, OPENING + [LATER]);
    WaitsForLegs(Run(Begin(EMPTY, UNDRAWN, now), OPENING), now);
    var s := Run(Begin(EMPTY, UNDRAWN, now), OPENING + [LATER]);
    SoundIsSent(s, SALE);
    FullIsValid(s, SALE);
    FullHolds(s, SALE);
    EarlierFails(s, SALE);
    var own := [TransactionWritten(1), CheckQueued(1)];
    FailsInOrder(Full(s, SALE).tables, s.state.pending, own, Asked(s));
    assert [TransactionWritten(1)] + [CheckQueued(1)] == own;
    RefusedAsUnbalanced(s.state.tables, SALE);
    NoRowsOfIt(s, SALE);
  }

  lemma NoRowsOfIt(s: Session, e: Entry)
    requires s.state.tables.postings == [] && s.supply.transaction == 1
    requires Resolved(s.state.tables.accounts, e.legs[..|e.legs|])
    ensures Of(Full(s, e).tables.postings, 0) == []
  {
    hide Of;
    FullHolds(s, e);
    var rows := LegRows(s.state.tables.accounts, 1, s.supply.posting, e.legs[..|e.legs|]);
    assert [] + rows == rows;
    OfOthers(rows, 0);
  }

  /** And a key still waiting for its result refuses a sound claim, which the same
      transaction records without it. */
  lemma UnsettledKeyRefusesOnce(now: int)
    ensures var s := Run(Begin(EMPTY, UNDRAWN, now), OPENING);
      Simple.Once(LedgerCalls.LedgerOf(s), Claim(OTHER_KEY, HASH), Server.TheWrite(SALE), now).1.Recorded?
    ensures var s := Run(Begin(EMPTY, UNDRAWN, now), OPENING + [InsertKey(KEY, HASH)]);
      && Valid(s) && !s.aborted && IsFree(s.state.tables, Claim(OTHER_KEY, HASH))
      && Reversal.IsSound(s.state.tables.accounts, SALE) && BookBalances(s.state.tables)
      && Simple.Once(LedgerCalls.LedgerOf(s), Claim(OTHER_KEY, HASH), Server.TheWrite(SALE), now).1 ==
        Turned(OthersUnsettled)
  {
    hide KeyCheck, Simple.Once, Reversal.IsSound, Valid, Run, Exec;
    Opened(now);
    SaleIsSound();
    KeyShapes();
    var s := Run(Begin(EMPTY, UNDRAWN, now), OPENING);
    ClaimIsRecorded(LedgerCalls.LedgerOf(s), Claim(OTHER_KEY, HASH), SALE, now);
    RunOne(Begin(EMPTY, UNDRAWN, now), OPENING, InsertKey(KEY, HASH));
    RunIsValid(now, OPENING);
    RunIsValid(now, OPENING + [InsertKey(KEY, HASH)]);
    WaitsForResult(s, now);
    var later := Exec(s, InsertKey(KEY, HASH)).0;
    assert KEY in later.state.tables.keys && later.state.tables.keys[KEY].transaction.None?;
    ClaimIsRecorded(LedgerCalls.LedgerOf(later), Claim(OTHER_KEY, HASH), SALE, now);
  }

  // ------------------------------------------------------------ an entry with no reversal

  const LEAST: Amount := -0x8000_0000_0000_0000
  const GREATEST: Amount := 0x7fff_ffff_ffff_ffff
  const WRITE_OFF := Entry("USD", "A sale", [Leg("cash", LEAST), Leg("sales", GREATEST), Leg("sales", 1)], None)

  /** The ledger takes an entry with a leg of -2^63, and no entry reverses it leg by leg. */
  lemma TakenAndNotReversible(now: int)
    ensures var b := LedgerCalls.LedgerOf(Run(Begin(EMPTY, UNDRAWN, now), OPENING));
      Simple.Post(b, WRITE_OFF, now).1.Posted?
    ensures !exists turned :: Reversal.Negates(WRITE_OFF.legs, turned)
  {
    hide Run, Begin;
    Opened(now);
    Shapes();
    var legs := WRITE_OFF.legs;
    assert legs[..2][..1] == [legs[0]] && legs[..2][..1][..0] == [];
    assert Sum(legs[..2][..1]) == LEAST as int;
    assert Sum(legs[..2]) == LEAST as int + GREATEST as int;
    assert FindAccount(Chart(), "cash") == Some(Chart()[0]);
    assert Chart()[1..] == [Chart()[1]];
    assert FindAccount(Chart(), "sales") == Some(Chart()[1]);
    assert Reversal.IsSound(Chart(), WRITE_OFF);
    var b := LedgerCalls.LedgerOf(Run(Begin(EMPTY, UNDRAWN, now), OPENING));
    PostAnswers(b, WRITE_OFF, now);
    Reversal.VerdictIsTheEntrys(b.tables, WRITE_OFF);
    Reversal.NegationOfAnEntry(WRITE_OFF);
    assert !Reversal.Reversible(WRITE_OFF) by { assert legs[0].amount as int == -Reversal.HALF; }
  }
}
