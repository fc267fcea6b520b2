/** The arithmetic of an entry: why its net is not a 64-bit sum, and what posting the
    same legs the other way round undoes. */
module Reversal {
  import opened Text
  import opened Book
  import opened Engine
  import opened Invariant
  import opened Simple
  import opened LedgerCalls
  import opened Totals
  import PostProof

  const HALF := 0x8000_0000_0000_0000
  const WHOLE := 0x1_0000_0000_0000_0000

  // ------------------------------------------------------------- the width

  /** What a 64-bit register keeps of a sum. */
  function Wrap(x: int): int { (x + HALF) % WHOLE - HALF }

  function WrappedSum(legs: seq<Leg>): int {
    if legs == [] then 0 else Wrap(WrappedSum(legs[..|legs| - 1]) + legs[|legs| - 1].amount as int)
  }

  lemma WrapOfWrap(a: int, b: int)
    ensures Wrap(Wrap(a) + b) == Wrap(a + b)
  {
    var k := (a + HALF) / WHOLE;
    assert Wrap(a) == a - k * WHOLE;
    assert (Wrap(a) + b + HALF) == (a + b + HALF) - k * WHOLE;
    Shifted(a + b + HALF, k);
  }

  lemma Shifted(x: int, k: int)
    ensures (x - k * WHOLE) % WHOLE == x % WHOLE
  {
    var q := x / WHOLE;
    assert x == q * WHOLE + x % WHOLE;
    assert x - k * WHOLE == (q - k) * WHOLE + x % WHOLE;
  }

  /** A wrapping sum knows the net only up to a multiple of 2^64, so it takes for
      balanced exactly the entries whose net is one. */
  lemma {:induction false} WrappedSumMeans(legs: seq<Leg>)
    ensures WrappedSum(legs) == Wrap(Sum(legs))
    ensures WrappedSum(legs) == 0 <==> Sum(legs) % WHOLE == 0
  {
    WrappedOnce(legs);
    var x := Sum(legs);
    Shifted(x + HALF, x / WHOLE);
    assert x - x / WHOLE * WHOLE == x % WHOLE;
  }

  lemma {:induction false} WrappedOnce(legs: seq<Leg>)
    ensures WrappedSum(legs) == Wrap(Sum(legs))
  {
    if legs == [] {
    } else {
      WrappedOnce(legs[..|legs| - 1]);
      WrapOfWrap(Sum(legs[..|legs| - 1]), legs[|legs| - 1].amount as int);
    }
  }

  /** Legs the ledger will each hold whose wrapping sum is zero and whose net is not. */
  lemma WrappingWouldPass()
    ensures var big := 0x7fff_ffff_ffff_ffff as Amount;
      var legs := [Leg("a", big), Leg("b", big), Leg("c", 2)];
      WrappedSum(legs) == 0 && Sum(legs) == WHOLE
  {
    var big := 0x7fff_ffff_ffff_ffff as Amount;
    var legs := [Leg("a", big), Leg("b", big), Leg("c", 2)];
    assert legs[..2] == [Leg("a", big), Leg("b", big)];
    assert legs[..2][..1] == [Leg("a", big)];
    assert legs[..2][..1][..0] == [];
    assert Sum(legs[..2][..1]) == big as int;
    assert Sum(legs[..2]) == 2 * (big as int);
    assert Sum(legs) == WHOLE;
    WrappedSumMeans(legs);
  }

  lemma {:induction false} SumIsBounded(legs: seq<Leg>)
    ensures -(|legs| * HALF) <= Sum(legs) <= |legs| * (HALF - 1)
  {
    if legs == [] {
    } else {
      SumIsBounded(legs[..|legs| - 1]);
    }
  }

  /** The loop in the ledger and the sum in the trigger are one number, over as many legs,
      whether or not they cancel. */
  lemma LoopIsTrigger(t: Tables, e: Entry, id: nat, first: nat)
    requires WellFormed(t) && Resolved(t.accounts, e.legs)
    requires forall x :: x in t.transactions ==> x.id != id
    ensures var written := Of(t.postings + LegRows(t.accounts, id, first, e.legs), id);
      Net(written) == Sum(e.legs) && |written| == |e.legs|
  {
    PostProof.EnteredLegs(t, e, id, first, id);
    PostProof.LegRowsNet(t.accounts, id, first, e.legs);
  }

  /** So what a refusal says an entry nets to, and over how many postings, is what a check
      of that entry finds in its own rows. Whether it was that check which refused it is
      another matter, which Unsettled.RaisedForItself settles. */
  lemma RefusalTellsTheNet(t: Tables, e: Entry, id: nat, first: nat)
    requires WellFormed(t) && forall x :: x in t.transactions ==> x.id != id
    ensures var why := PostVerdict(t, e);
      why.Some? && why.value.Unbalanced? ==>
        && Resolved(t.accounts, e.legs)
        && var written := Of(t.postings + LegRows(t.accounts, id, first, e.legs), id);
           why.value == Unbalanced(Net(written), |written|)
  {
    hide WellFormed, Of, Net;
    var why := PostVerdict(t, e);
    if why.Some? && why.value.Unbalanced? {
      Verdict(t, e);
      LoopIsTrigger(t, e, id, first);
    }
  }

  // ------------------------------------------------------------ the verdict

  /** An entry that breaks no rule of its own. */
  ghost predicate IsSound(accounts: seq<Account>, e: Entry) {
    && TransactionCheck(e.currency, e.description).None?
    && (forall i :: 0 <= i < |e.legs| ==> HeldInCurrency(accounts, e.legs[i], e.currency))
    && e.legs != [] && Sum(e.legs) == 0
  }

  ghost predicate HeldInCurrency(accounts: seq<Account>, leg: Leg, currency: string) {
    leg.amount != 0 && exists a :: FindAccount(accounts, leg.account) == Some(a) && a.currency == currency
  }

  /** `Post` accepts an entry exactly when it breaks no rule of its own and every entry
      of the book balances: what an earlier call left unbalanced refuses a sound one. */
  lemma VerdictIsTheEntrys(t: Tables, e: Entry)
    ensures PostVerdict(t, e).None? <==> IsSound(t.accounts, e) && BookBalances(t)
    ensures PostVerdict(t, e).None? ==> |e.legs| >= 2
  {
    hide BookBalances;
    forall i | 0 <= i < |e.legs|
      ensures LegFault(t.accounts, e.currency, e.legs[i], i).None? <==>
        HeldInCurrency(t.accounts, e.legs[i], e.currency)
    {
      var account := FindAccount(t.accounts, e.legs[i].account);
      assert account.Some? ==> account == Some(account.value);
    }
    if |e.legs| == 1 { assert Sum(e.legs[..0]) == 0; }
  }

  /** The leg a refusal names is the first at fault, and the rule it names is the first
      of the three that leg breaks. */
  lemma RefusedLegIsTheFirst(t: Tables, e: Entry, i: nat)
    requires i < |e.legs| && TransactionCheck(e.currency, e.description).None?
    requires forall j :: 0 <= j < i ==> LegFault(t.accounts, e.currency, e.legs[j], j).None?
    ensures LegFault(t.accounts, e.currency, e.legs[i], i).Some? ==>
      PostVerdict(t, e) == LegFault(t.accounts, e.currency, e.legs[i], i)
    ensures FindAccount(t.accounts, e.legs[i].account).None? ==> PostVerdict(t, e) == Some(UnknownAccount(i))
    ensures forall a :: FindAccount(t.accounts, e.legs[i].account) == Some(a) ==>
      (e.legs[i].amount == 0 ==> PostVerdict(t, e) == Some(LegRejected(i))) &&
      (e.legs[i].amount != 0 && a.currency != e.currency ==>
        PostVerdict(t, e) == Some(CurrencyMismatch(i, Some(a.currency))))
  {
    if LegFault(t.accounts, e.currency, e.legs[i], i).Some? {
      assert FirstFault(t.accounts, e, 0) == Some(i);
    }
  }

  // ------------------------------------------------------------- reversing

  /** One amount has no negation a posting can hold. */
  lemma NegationExpressible(x: Amount)
    ensures (exists y: Amount :: IsNegation(y, x)) <==> x as int != -HALF
  {
    if x as int != -HALF { assert IsNegation(-x, x); }
  }

  predicate IsNegation(y: Amount, x: Amount) { y as int == -(x as int) }

  predicate Reversible(e: Entry) { forall i | 0 <= i < |e.legs| :: e.legs[i].amount as int != -HALF }

  function Negated(legs: seq<Leg>): (r: seq<Leg>)
    requires forall i :: 0 <= i < |legs| ==> legs[i].amount as int != -HALF
    ensures |r| == |legs|
    ensures forall i :: 0 <= i < |legs| ==> r[i].account == legs[i].account && r[i].amount == -legs[i].amount
  {
    if legs == [] then []
    else Negated(legs[..|legs| - 1]) + [Leg(legs[|legs| - 1].account, -legs[|legs| - 1].amount)]
  }

  function Reversal(e: Entry): Entry
    requires Reversible(e)
  {
    e.(legs := Negated(e.legs))
  }

  /** Legs on the same accounts with every sign turned. */
  ghost predicate Negates(legs: seq<Leg>, turned: seq<Leg>) {
    |turned| == |legs| && forall i :: 0 <= i < |legs| ==> Turns(legs[i], turned[i])
  }

  predicate Turns(leg: Leg, turned: Leg) { turned.account == leg.account && IsNegation(turned.amount, leg.amount) }

  /** An entry's negation can be written leg by leg exactly when no leg is -2^63. */
  lemma NegationOfAnEntry(e: Entry)
    ensures (exists turned :: Negates(e.legs, turned)) <==> Reversible(e)
  {
    if Reversible(e) {
      assert Negates(e.legs, Negated(e.legs));
    }
    if exists turned :: Negates(e.legs, turned) {
      var turned: seq<Leg> :| Negates(e.legs, turned);
      forall i | 0 <= i < |e.legs| ensures e.legs[i].amount as int != -HALF {
        assert Turns(e.legs[i], turned[i]);
        assert IsNegation(turned[i].amount, e.legs[i].amount);
        NegationExpressible(e.legs[i].amount);
      }
    }
  }

  lemma {:induction false} NegatedSum(legs: seq<Leg>)
    requires forall i :: 0 <= i < |legs| ==> legs[i].amount as int != -HALF
    ensures Sum(Negated(legs)) == -Sum(legs)
  {
    if legs == [] {
    } else {
      NegatedSum(legs[..|legs| - 1]);
      assert Negated(legs)[..|legs| - 1] == Negated(legs[..|legs| - 1]);
    }
  }

  /** Row for row on the same account, with the sign turned. */
  lemma {:induction false} OppositePostings(ps: seq<Posting>, qs: seq<Posting>, account: nat)
    requires |ps| == |qs|
    requires forall i :: 0 <= i < |ps| ==>
      qs[i].account == ps[i].account && qs[i].amount as int == -(ps[i].amount as int)
    ensures Net(On(ps, account)) == -Net(On(qs, account))
  {
    hide On, Net;
    if ps == [] {
      OneMoreRow([], Posting(0, 0, 0, "", 0), account);
      assert ps == [] && qs == [];
    } else {
      var n := |ps| - 1;
      OppositePostings(ps[..n], qs[..n], account);
      OneMoreRow(ps[..n], ps[n], account);
      OneMoreRow(qs[..n], qs[n], account);
      assert ps[..n] + [ps[n]] == ps && qs[..n] + [qs[n]] == qs;
    }
  }

  /** The two entries move each account by opposite amounts. */
  lemma OppositeRows(accounts: seq<Account>, id: nat, first: nat, id': nat, first': nat, legs: seq<Leg>, account: nat)
    requires Resolved(accounts, legs) && forall i :: 0 <= i < |legs| ==> legs[i].amount as int != -HALF
    ensures Resolved(accounts, Negated(legs))
    ensures Net(On(LegRows(accounts, id, first, legs), account)) ==
           -Net(On(LegRows(accounts, id', first', Negated(legs)), account))
  {
    hide On, Net;
    OppositePostings(LegRows(accounts, id, first, legs), LegRows(accounts, id', first', Negated(legs)), account);
  }

  lemma OneMoreRow(ps: seq<Posting>, p: Posting, account: nat)
    ensures Net(On(ps + [p], account)) == Net(On(ps, account)) + if p.account == account then p.amount as int else 0
    ensures Net(On([], account)) == 0
  {
    assert (ps + [p])[..|ps|] == ps;
    if p.account == account {
      assert (On(ps, account) + [p])[..|On(ps, account)|] == On(ps, account);
    } else {
      assert On(ps, account) + [] == On(ps, account);
    }
  }

  /** The reversal of an accepted entry is accepted straight after it. */
  lemma ReversalIsAccepted(b: Ledger, e: Entry, now: int)
    requires WellFormed(b.tables) && Drawable(b.tables, b.supply)
    requires PostVerdict(b.tables, e).None? && Reversible(e)
    ensures PostVerdict(Simple.Post(b, e, now).0.tables, Reversal(e)).None?
  {
    hide WellFormed, Drawable, BookBalances, LegFault, TransactionCheck, Negated, Sum;
    var after := Simple.Post(b, e, now).0.tables;
    Verdict(b.tables, e);
    FreshBelow(b);
    PostProof.EnteredBalances(b.tables, e, b.supply.transaction, b.supply.posting, now);
    NegatedSum(e.legs);
    NegatedFaults(b.tables.accounts, e);
  }

  lemma FreshBelow(b: Ledger)
    requires Drawable(b.tables, b.supply)
    ensures forall x :: x in b.tables.transactions ==> x.id != b.supply.transaction
  {
  }

  lemma NegatedFaults(accounts: seq<Account>, e: Entry)
    requires Reversible(e) && FirstFault(accounts, e, 0).None?
    ensures FirstFault(accounts, Reversal(e), 0).None?
  {
    var r := Reversal(e);
    forall i | 0 <= i < |r.legs| ensures LegFault(accounts, r.currency, r.legs[i], i).None? {
      assert LegFault(accounts, e.currency, e.legs[i], i).None?;
    }
  }

  /** Posting an entry and then its reversal puts every account back where it was. */
  lemma ReversalRestores(b: Ledger, e: Entry, now: int, account: nat)
    requires WellFormed(b.tables) && Drawable(b.tables, b.supply)
    requires PostVerdict(b.tables, e).None? && Reversible(e)
    ensures
      var after := Simple.Post(b, e, now).0;
      var (undone, r) := Simple.Post(after, Reversal(e), now);
      r.Posted? && Net(On(undone.tables.postings, account)) == Net(On(b.tables.postings, account))
  {
    hide PostVerdict;
    var after := Simple.Post(b, e, now).0;
    var undone := Simple.Post(after, Reversal(e), now).0;
    ReversalIsAccepted(b, e, now);
    Verdict(b.tables, e);
    Verdict(after.tables, Reversal(e));
    var there := LegRows(b.tables.accounts, b.supply.transaction, b.supply.posting, e.legs);
    var back := LegRows(b.tables.accounts, after.supply.transaction, after.supply.posting, Negated(e.legs));
    OppositeRows(b.tables.accounts, b.supply.transaction, b.supply.posting,
                 after.supply.transaction, after.supply.posting, e.legs, account);
    NetOnConcat(b.tables.postings, there, account);
    NetOnConcat(b.tables.postings + there, back, account);
  }

  lemma NetOnConcat(a: seq<Posting>, b: seq<Posting>, account: nat)
    ensures Net(On(a + b, account)) == Net(On(a, account)) + Net(On(b, account))
  {
    OnConcat(a, b, account);
    NetConcat(On(a, account), On(b, account));
  }

  lemma {:induction false} InOneGrows(a: seq<Posting>, b: seq<Posting>, currency: string, side: Side)
    requires !side.Both?
    ensures InOne(a + b, currency, side) >= InOne(a, currency, side)
    decreases |b|
  {
    if b == [] {
      assert a + b == a;
    } else {
      InOneGrows(a, b[..|b| - 1], currency, side);
      assert (a + b)[..|a + b| - 1] == a + b[..|b| - 1];
    }
  }

  lemma SideGrows(earlier: Tables, later: Tables, currency: string, side: Side)
    requires WellFormed(earlier) && WellFormed(later) && Extends(earlier, later) && !side.Both?
    ensures Over(InCurrency(LeftJoin(earlier.accounts, earlier.postings), currency), side)
         <= Over(InCurrency(LeftJoin(later.accounts, later.postings), currency), side)
  {
    hide WellFormed, LeftJoin, InCurrency, Over, InOne;
    TrialCountsPostings(earlier, currency, side);
    TrialCountsPostings(later, currency, side);
    var added := later.postings[|earlier.postings|..];
    assert later.postings == earlier.postings + added;
    InOneGrows(earlier.postings, added, currency, side);
  }

  /** Both sides of a currency only ever grow: nothing later takes a posting back. */
  lemma SidesOnlyGrow(earlier: Tables, later: Tables, currency: string)
    requires WellFormed(earlier) && WellFormed(later) && Extends(earlier, later)
    ensures TrialRow(earlier, currency).debits <= TrialRow(later, currency).debits
    ensures TrialRow(earlier, currency).credits <= TrialRow(later, currency).credits
  {
    hide WellFormed, LeftJoin, InCurrency, Over, Extends;
    SideGrows(earlier, later, currency, DebitSide);
    SideGrows(earlier, later, currency, CreditSide);
  }
}
