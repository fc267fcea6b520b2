/** The balance rule between transactions. Sessions interleave, append legs to entries
    of their own and of one another, and check each entry over their own legs plus
    whatever committed sessions their snapshot happens to hold, at any isolation level. */
module Isolation {

  type Id = nat
  type Sid = nat

  datatype Leg = Leg(entry: Id, amount: int)

  /** What one transaction has written, and the entries it still owes a check. */
  datatype Work = Work(created: set<Id>, legs: seq<Leg>, owed: set<Id>)

  datatype Phase = Live | Committed | Gone

  datatype Session = Session(work: Work, saves: seq<Work>, phase: Phase)

  type World = map<Sid, Session>

  // ----------------------------------------------------------------- sums

  function NetOf(legs: seq<Leg>, id: Id): int {
    if legs == [] then 0
    else NetOf(legs[..|legs| - 1], id) + if legs[|legs| - 1].entry == id then legs[|legs| - 1].amount else 0
  }

  function CountOf(legs: seq<Leg>, id: Id): nat {
    if legs == [] then 0
    else CountOf(legs[..|legs| - 1], id) + if legs[|legs| - 1].entry == id then 1 else 0
  }

  ghost function Pick(seen: set<Sid>): (s: Sid)
    requires seen != {}
    ensures s in seen
  {
    var s :| s in seen; s
  }

  ghost function NetSeen(w: World, seen: set<Sid>, id: Id): int
    requires seen <= w.Keys
  {
    if seen == {} then 0
    else var s := Pick(seen); NetOf(w[s].work.legs, id) + NetSeen(w, seen - {s}, id)
  }

  ghost function CountSeen(w: World, seen: set<Sid>, id: Id): nat
    requires seen <= w.Keys
  {
    if seen == {} then 0
    else var s := Pick(seen); CountOf(w[s].work.legs, id) + CountSeen(w, seen - {s}, id)
  }

  // ---------------------------------------------------------------- steps

  /** `Check` is assert_transaction_balances run over a snapshot `seen` of the committed
      sessions. `Begin` opens a session, `Leave` is a rollback, a crash or a cancellation. */
  datatype Act =
    | Begin(s: Sid)
    | Create(s: Sid, id: Id)
    | Append(s: Sid, id: Id, amount: int)
    | Check(s: Sid, id: Id, seen: set<Sid>)
    | Save(s: Sid)
    | Restore(s: Sid, depth: nat)
    | Release(s: Sid, depth: nat)
    | Commit(s: Sid)
    | Leave(s: Sid)

  predicate IsCommitted(w: World, s: Sid) { s in w && w[s].phase.Committed? }

  predicate IsLive(w: World, s: Sid) { s in w && w[s].phase.Live? }

  /** A foreign key sees the transaction's own rows and committed ones. */
  ghost predicate Visible(w: World, s: Sid, id: Id) {
    IsLive(w, s) && (id in w[s].work.created || exists c :: IsCommitted(w, c) && id in w[c].work.created)
  }

  ghost predicate Snapshot(w: World, s: Sid, id: Id, seen: set<Sid>) {
    && (forall c :: c in seen ==> IsCommitted(w, c))
    && IsLive(w, s)
    && (id in w[s].work.created || exists c :: c in seen && id in w[c].work.created)
  }

  ghost predicate Enabled(w: World, a: Act) {
    match a
    case Begin(s) => s !in w
    case Create(s, id) => IsLive(w, s) && Unused(w, id)
    case Append(s, id, amount) => Visible(w, s, id) && amount != 0
    case Check(s, id, seen) =>
      && Snapshot(w, s, id, seen)
      && CountOf(w[s].work.legs, id) + CountSeen(w, seen, id) > 0
      && NetOf(w[s].work.legs, id) + NetSeen(w, seen, id) == 0
    case Save(s) => IsLive(w, s)
    case Restore(s, depth) => IsLive(w, s) && depth < |w[s].saves|
    case Release(s, depth) => IsLive(w, s) && depth < |w[s].saves|
    case Commit(s) => IsLive(w, s) && w[s].work.owed == {}
    case Leave(s) => IsLive(w, s)
  }

  /** A generated id is one no session has drawn, in a savepoint or out of one. */
  ghost predicate Unused(w: World, id: Id) {
    forall s :: s in w ==> !Draws(w[s], id)
  }

  /** An id the session generated, whether or not it has since rolled back. */
  ghost predicate Draws(x: Session, id: Id) {
    id in x.work.created || exists i :: 0 <= i < |x.saves| && id in x.saves[i].created
  }

  function WithWork(w: World, s: Sid, work: Work): World
    requires s in w
  {
    w[s := w[s].(work := work)]
  }

  ghost function Do(w: World, a: Act): World
    requires Enabled(w, a)
  {
    match a
    case Begin(s) => w[s := Session(Work({}, [], {}), [], Live)]
    case Create(s, id) =>
      WithWork(w, s, w[s].work.(created := w[s].work.created + {id}, owed := w[s].work.owed + {id}))
    case Append(s, id, amount) =>
      WithWork(w, s, w[s].work.(legs := w[s].work.legs + [Leg(id, amount)], owed := w[s].work.owed + {id}))
    case Check(s, id, _) => WithWork(w, s, w[s].work.(owed := w[s].work.owed - {id}))
    case Save(s) => w[s := w[s].(saves := w[s].saves + [w[s].work])]
    case Restore(s, depth) => w[s := w[s].(work := w[s].saves[depth], saves := w[s].saves[..depth + 1])]
    case Release(s, depth) => w[s := w[s].(saves := w[s].saves[..depth])]
    case Commit(s) => w[s := w[s].(phase := Committed)]
    case Leave(s) => w[s := w[s].(phase := Gone)]
  }

  /** `w` is a world some interleaving of steps reaches. */
  ghost predicate Reached(acts: seq<Act>, w: World)
    decreases |acts|
  {
    if acts == [] then w == map[]
    else
      var earlier, last := acts[..|acts| - 1], acts[|acts| - 1];
      exists before :: Reached(earlier, before) && Follows(before, last, w)
  }

  /** The acts from one world to another. */
  ghost predicate Leads(w: World, acts: seq<Act>, after: World)
    decreases |acts|
  {
    if acts == [] then w == after
    else Enabled(w, acts[0]) && Leads(Do(w, acts[0]), acts[1..], after)
  }

  lemma {:induction false} LeadsOn(w: World, acts: seq<Act>, mid: World, more: seq<Act>, after: World)
    requires Leads(w, acts, mid) && Leads(mid, more, after)
    ensures Leads(w, acts + more, after)
    decreases |acts|
  {
    if acts == [] {
      assert acts + more == more;
    } else {
      LeadsOn(Do(w, acts[0]), acts[1..], mid, more, after);
      assert (acts + more)[1..] == acts[1..] + more;
    }
  }

  lemma OneAct(w: World, a: Act)
    requires Enabled(w, a)
    ensures Leads(w, [a], Do(w, a))
  {
    assert [a][1..] == [];
  }

  /** What leads on from a reached world is reached. */
  lemma {:induction false} ReachedOn(acts: seq<Act>, w: World, more: seq<Act>, after: World)
    requires Reached(acts, w) && Leads(w, more, after)
    ensures Reached(acts + more, after)
    decreases |more|
  {
    hide Do, Enabled;
    if more == [] {
      assert acts + more == acts;
    } else {
      var all := acts + [more[0]];
      assert all[..|all| - 1] == acts;
      assert Follows(w, more[0], Do(w, more[0]));
      ReachedOn(all, Do(w, more[0]), more[1..], after);
      assert all + more[1..] == acts + more;
    }
  }

  ghost predicate Follows(before: World, a: Act, after: World) { Enabled(before, a) && after == Do(before, a) }

  // ------------------------------------------------------------- invariant

  /** An entry that owes no check is one this session has moved by nothing on balance,
      and one it created has legs. */
  ghost predicate Squared(work: Work) {
    forall id :: id !in work.owed ==>
      NetOf(work.legs, id) == 0 && (id in work.created ==> CountOf(work.legs, id) > 0)
  }

  ghost predicate NonZero(work: Work) { forall leg :: leg in work.legs ==> leg.amount != 0 }

  /** Legs are only on entries that were visible: a session's own, or committed ones. */
  ghost predicate Placed(w: World, work: Work) {
    forall leg :: leg in work.legs ==>
      leg.entry in work.created || exists c :: IsCommitted(w, c) && leg.entry in w[c].work.created
  }

  ghost predicate Sound(w: World, work: Work) { Squared(work) && NonZero(work) && Placed(w, work) }

  /** No entry is two sessions' own. */
  ghost predicate DrawnOnce(w: World) {
    forall s, c, id :: s in w && c in w && s != c && Draws(w[s], id) ==> !Draws(w[c], id)
  }

  ghost predicate Valid(w: World) {
    && DrawnOnce(w)
    && (forall s :: s in w ==> Sound(w, w[s].work) && forall i :: 0 <= i < |w[s].saves| ==> Sound(w, w[s].saves[i]))
    && (forall s :: IsCommitted(w, s) ==> w[s].work.owed == {})
  }

  lemma {:induction false} SeenIsSquared(w: World, seen: set<Sid>, id: Id)
    requires seen <= w.Keys
    requires forall c :: c in seen ==> NetOf(w[c].work.legs, id) == 0
    ensures NetSeen(w, seen, id) == 0
    decreases |seen|
  {
    if seen == {} {
    } else {
      var s := Pick(seen);
      SeenIsSquared(w, seen - {s}, id);
    }
  }

  lemma {:induction false} SeenIsEmpty(w: World, seen: set<Sid>, id: Id)
    requires seen <= w.Keys
    requires forall c :: c in seen ==> CountOf(w[c].work.legs, id) == 0
    ensures CountSeen(w, seen, id) == 0
    decreases |seen|
  {
    if seen == {} {
    } else {
      var s := Pick(seen);
      SeenIsEmpty(w, seen - {s}, id);
    }
  }

  lemma {:induction false} SeenCounts(w: World, seen: set<Sid>, id: Id, c: Sid)
    requires seen <= w.Keys && c in seen
    ensures CountSeen(w, seen, id) >= CountOf(w[c].work.legs, id)
    decreases |seen|
  {
    var s := Pick(seen);
    if s == c {
    } else {
      SeenCounts(w, seen - {s}, id, c);
    }
  }

  lemma {:induction false} NoLegsOn(legs: seq<Leg>, id: Id)
    requires forall leg :: leg in legs ==> leg.entry != id
    ensures CountOf(legs, id) == 0 && NetOf(legs, id) == 0
  {
    if legs == [] {
    } else {
      NoLegsOn(legs[..|legs| - 1], id);
    }
  }

  lemma {:induction false} OneLegIsNotSquare(legs: seq<Leg>, id: Id)
    requires forall leg :: leg in legs ==> leg.amount != 0
    ensures CountOf(legs, id) == 0 ==> NetOf(legs, id) == 0
    ensures CountOf(legs, id) == 1 ==> NetOf(legs, id) != 0
  {
    if legs == [] {
    } else {
      var last := legs[|legs| - 1];
      assert last in legs;
      OneLegIsNotSquare(legs[..|legs| - 1], id);
    }
  }

  // ------------------------------------------------------------ each step

  lemma PlacedAfter(w: World, after: World, work: Work)
    requires Placed(w, work)
    requires forall c :: IsCommitted(w, c) ==> IsCommitted(after, c) && after[c].work == w[c].work
    ensures Placed(after, work)
  {
    forall leg | leg in work.legs
      ensures leg.entry in work.created || exists c :: IsCommitted(after, c) && leg.entry in after[c].work.created
    {
      if leg.entry !in work.created {
        var c :| IsCommitted(w, c) && leg.entry in w[c].work.created;
        assert IsCommitted(after, c) && leg.entry in after[c].work.created;
      }
    }
  }

  lemma StepSpares(w: World, a: Act)
    requires Enabled(w, a)
    ensures forall c :: c in w && c != a.s ==> c in Do(w, a) && Do(w, a)[c] == w[c]
    ensures forall c :: IsCommitted(w, c) ==> IsCommitted(Do(w, a), c) && Do(w, a)[c] == w[c]
    ensures a.s in Do(w, a) && forall c :: c in Do(w, a) ==> c in w || c == a.s
  {
  }

  /** The heart of it. A committed session moved the entry by nothing, so however much or
      little of the others a check sees, a sum of zero is a sum of zero over the
      session's own legs. */
  lemma CheckSquares(w: World, s: Sid, id: Id, seen: set<Sid>)
    requires Valid(w) && Enabled(w, Check(s, id, seen))
    ensures NetOf(w[s].work.legs, id) == 0
    ensures id in w[s].work.created ==> CountOf(w[s].work.legs, id) > 0
  {
    forall c | c in seen ensures NetOf(w[c].work.legs, id) == 0 {
      assert IsCommitted(w, c) && Squared(w[c].work);
    }
    SeenIsSquared(w, seen, id);
    if id in w[s].work.created {
      forall c | c in seen ensures CountOf(w[c].work.legs, id) == 0 {
        assert IsCommitted(w, c) && c != s;
        assert Placed(w, w[c].work);
        assert Draws(w[s], id);
        assert forall d :: IsCommitted(w, d) ==> !Draws(w[d], id);
        NoLegsOn(w[c].work.legs, id);
      }
      SeenIsEmpty(w, seen, id);
    }
  }

  lemma NoLegsAtAll()
    ensures forall id :: NetOf([], id) == 0
  {
  }

  lemma CreateKeeps(work: Work, id: Id)
    requires Squared(work)
    ensures Squared(work.(created := work.created + {id}, owed := work.owed + {id}))
  {
  }

  lemma AppendKeeps(work: Work, id: Id, amount: int)
    requires Squared(work) && NonZero(work) && amount != 0
    ensures var after := work.(legs := work.legs + [Leg(id, amount)], owed := work.owed + {id});
      Squared(after) && NonZero(after)
  {
    assert (work.legs + [Leg(id, amount)])[..|work.legs|] == work.legs;
  }

  /** What the acting session's own rows become. */
  lemma OwnWorkKept(w: World, a: Act)
    requires Valid(w) && Enabled(w, a)
    ensures Sound(Do(w, a), Do(w, a)[a.s].work)
  {
    hide DrawnOnce, NetOf, CountOf;
    var after := Do(w, a);
    StepSpares(w, a);
    match a
    case Begin(s) => NoLegsAtAll();
    case Create(s, id) =>
      CreateKeeps(w[s].work, id);
      PlacedAfter(w, after, w[s].work);
      assert Placed(after, after[s].work);
    case Append(s, id, amount) =>
      PlacedAfter(w, after, w[s].work);
      AppendKeeps(w[s].work, id, amount);
      if id !in w[s].work.created {
        var c :| IsCommitted(w, c) && id in w[c].work.created;
        assert IsCommitted(after, c) && id in after[c].work.created;
      }
    case Check(s, id, seen) =>
      CheckSquares(w, s, id, seen);
      PlacedAfter(w, after, w[s].work);
      assert Squared(after[s].work);
      assert Placed(after, after[s].work);
    case Save(s) => PlacedAfter(w, after, w[s].work);
    case Restore(s, depth) => PlacedAfter(w, after, w[s].saves[depth]);
    case Release(s, _) => PlacedAfter(w, after, w[s].work);
    case Commit(s) => PlacedAfter(w, after, w[s].work);
    case Leave(s) => PlacedAfter(w, after, w[s].work);
  }

  lemma StepDraws(w: World, a: Act, id: Id)
    requires Enabled(w, a) && Draws(Do(w, a)[a.s], id)
    ensures (a.s in w && Draws(w[a.s], id)) || (a.Create? && a.id == id)
  {
    var after := Do(w, a)[a.s];
    if id !in after.work.created {
      var i :| 0 <= i < |after.saves| && id in after.saves[i].created;
      assert a.s in w && (after.saves[i] == w[a.s].work || (i < |w[a.s].saves| && after.saves[i] == w[a.s].saves[i]));
    }
  }

  lemma OnceKept(w: World, a: Act)
    requires DrawnOnce(w) && Enabled(w, a)
    ensures DrawnOnce(Do(w, a))
  {
    hide Draws, Do;
    var after := Do(w, a);
    StepSpares(w, a);
    forall s, c, id | s in after && c in after && s != c && Draws(after[s], id) ensures !Draws(after[c], id) {
      if Draws(after[a.s], id) { StepDraws(w, a, id); }
    }
  }

  lemma StepKeeps(w: World, a: Act)
    requires Valid(w) && Enabled(w, a)
    ensures Valid(Do(w, a))
  {
    hide DrawnOnce, Squared, NonZero, Placed, Enabled, Do;
    var after := Do(w, a);
    StepSpares(w, a);
    OnceKept(w, a);
    OwnWorkKept(w, a);
    SavesAfter(w, a);
    forall s | s in after && s != a.s
      ensures Sound(after, after[s].work) && forall i :: 0 <= i < |after[s].saves| ==> Sound(after, after[s].saves[i])
    {
      PlacedAfter(w, after, w[s].work);
      forall i | 0 <= i < |w[s].saves| ensures Sound(after, w[s].saves[i]) { PlacedAfter(w, after, w[s].saves[i]); }
    }
  }

  lemma SavesAfter(w: World, a: Act)
    requires Valid(w) && Enabled(w, a)
    ensures forall i :: 0 <= i < |Do(w, a)[a.s].saves| ==> Sound(Do(w, a), Do(w, a)[a.s].saves[i])
    ensures forall c :: IsCommitted(Do(w, a), c) ==> Do(w, a)[c].work.owed == {}
  {
    var after := Do(w, a);
    StepSpares(w, a);
    forall i | 0 <= i < |after[a.s].saves| ensures Sound(after, after[a.s].saves[i]) {
      var saved := after[a.s].saves[i];
      assert a.s in w && (saved == w[a.s].work || (i < |w[a.s].saves| && saved == w[a.s].saves[i]));
      PlacedAfter(w, after, saved);
    }
  }

  lemma {:induction false} ReachedIsValid(acts: seq<Act>, w: World)
    requires Reached(acts, w)
    ensures Valid(w)
    decreases |acts|
  {
    if acts == [] {
    } else {
      var earlier, last := acts[..|acts| - 1], acts[|acts| - 1];
      var before :| Reached(earlier, before) && Follows(before, last, w);
      ReachedIsValid(earlier, before);
      StepKeeps(before, last);
    }
  }

  /** In any world any interleaving reaches: a committed session owes no check and moved
      every entry by nothing on balance; and any set of committed sessions that holds an
      entry's creator sees that entry balanced, over at least two legs. */
  lemma CommittedBalances(acts: seq<Act>, w: World, seen: set<Sid>, creator: Sid, id: Id)
    requires Reached(acts, w)
    requires seen <= w.Keys && forall c :: c in seen ==> IsCommitted(w, c)
    ensures forall c :: c in seen ==> w[c].work.owed == {} && NetOf(w[c].work.legs, id) == 0
    ensures NetSeen(w, seen, id) == 0
    ensures creator in seen && id in w[creator].work.created ==> CountSeen(w, seen, id) >= 2
  {
    ReachedIsValid(acts, w);
    forall c | c in seen ensures w[c].work.owed == {} && NetOf(w[c].work.legs, id) == 0 {
      assert IsCommitted(w, c) && Squared(w[c].work);
    }
    SeenIsSquared(w, seen, id);
    if creator in seen && id in w[creator].work.created {
      assert IsCommitted(w, creator) && Squared(w[creator].work) && NonZero(w[creator].work);
      OneLegIsNotSquare(w[creator].work.legs, id);
      SeenCounts(w, seen, id, creator);
    }
  }
}
