/** The sessions never deadlock and always finish. */
module Progress {
  import opened Protocol

  /** A session that waits holds nothing another can wait on: no chain, so no cycle. */
  lemma NoChain(w: World, s: Sid, holder: Sid, other: Sid)
    requires WaitsFor(w, s, holder)
    ensures !WaitsFor(w, holder, other) && !WaitsFor(w, other, s)
  {
  }

  /** The step a session in this phase takes next. */
  function NextAct(x: Session, s: Sid, taken: bool, acknowledged: bool): Act {
    match x.phase
    case Started => Ask(s)
    case Asking => Insert(s)
    case Holding => if x.request.PostRequest? then Write(s, taken) else ReadBack(s)
    case Wrote(_) => Record(s)
    case Duplicate => ReadBack(s)
    case Found(_) => ReadEntry(s)
    case _ => Commit(s, acknowledged)
  }

  predicate Waits(w: World, s: Sid) { exists c :: c in w.sessions && WaitsFor(w, s, c) }

  /** An unfinished session either takes its next step now or waits for one that can take
      its own. */
  lemma NeverStuck(w: World, s: Sid, taken: bool, acknowledged: bool)
    requires Valid(w) && Unfinished(w, s)
    ensures Waits(w, s) || Enabled(w, NextAct(w.sessions[s], s, taken, acknowledged))
    ensures forall c :: c in w.sessions && WaitsFor(w, s, c) ==>
      Unfinished(w, c) && Enabled(w, NextAct(w.sessions[c], c, taken, acknowledged))
  {
    hide OneHolder, SnapshotsHeld, Paired, Honest, IdsFresh;
    assert Truthful(w.db, w.sessions[s]);
    forall c | c in w.sessions && WaitsFor(w, s, c)
      ensures Unfinished(w, c) && Enabled(w, NextAct(w.sessions[c], c, taken, acknowledged))
    {
      assert Truthful(w.db, w.sessions[c]);
    }
  }

  // ---------------------------------------------------------------- finishing

  function Left(phase: Phase): nat {
    match phase
    case Started => 8
    case Asking => 7
    case Holding => 6
    case Wrote(_) => 5
    case Settled(_) => 4
    case Duplicate => 3
    case Found(_) => 2
    case Replaying(_, _) => 1
    case Opening => 1
    case Done(_) => 0
  }

  lemma NextIsLess(w: World, a: Act)
    requires Enabled(w, a) && !a.Begin?
    ensures Left(Do(w, a).sessions[a.s].phase) < Left(w.sessions[a.s].phase)
  {
  }

  ghost function Total(sessions: map<Sid, Session>, among: set<Sid>): nat
    requires among <= sessions.Keys
  {
    if among == {} then 0
    else
      var s :| s in among;
      Left(sessions[s].phase) + Total(sessions, among - {s})
  }

  lemma {:induction false} TotalOf(sessions: map<Sid, Session>, among: set<Sid>, s: Sid)
    requires among <= sessions.Keys && s in among
    ensures Total(sessions, among) == Left(sessions[s].phase) + Total(sessions, among - {s})
    decreases among
  {
    var t :| t in among && Total(sessions, among) == Left(sessions[t].phase) + Total(sessions, among - {t});
    if t == s {
    } else {
      TotalOf(sessions, among - {t}, s);
      TotalOf(sessions, among - {s}, t);
      assert among - {t} - {s} == among - {s} - {t};
    }
  }

  lemma {:induction false} TotalSame(before: map<Sid, Session>, after: map<Sid, Session>, among: set<Sid>)
    requires among <= before.Keys && among <= after.Keys
    requires forall s :: s in among ==> before[s] == after[s]
    ensures Total(before, among) == Total(after, among)
    decreases among
  {
    if among == {} {
    } else {
      var s :| s in among;
      TotalOf(before, among, s);
      TotalOf(after, among, s);
      TotalSame(before, after, among - {s});
    }
  }

  ghost function Remaining(w: World): nat { Total(w.sessions, w.sessions.Keys) }

  /** Every step but an arrival leaves less to do. */
  lemma StepFinishes(w: World, a: Act)
    requires Enabled(w, a) && !a.Begin?
    ensures Remaining(Do(w, a)) < Remaining(w)
  {
    hide Do, Enabled;
    var after := Do(w, a);
    StepSpares(w, a);
    ActsInWorld(w, a);
    NextIsLess(w, a);
    assert after.sessions.Keys == w.sessions.Keys;
    TotalOf(w.sessions, w.sessions.Keys, a.s);
    TotalOf(after.sessions, w.sessions.Keys, a.s);
    TotalSame(w.sessions, after.sessions, w.sessions.Keys - {a.s});
  }

  lemma ActsInWorld(w: World, a: Act)
    requires Enabled(w, a) && !a.Begin?
    ensures a.s in w.sessions
  {
  }

  /** Acts that follow one another from any world, no session arriving among them. */
  ghost predicate Onward(worlds: seq<World>, acts: seq<Act>) {
    && |worlds| == |acts| + 1
    && forall i :: 0 <= i < |acts| ==> Follows(worlds[i], acts[i], worlds[i + 1]) && !acts[i].Begin?
  }

  /** However the sessions are scheduled, once no more arrive they take at most `Remaining`
      steps between them. */
  lemma {:induction false} AllFinish(worlds: seq<World>, acts: seq<Act>)
    requires Onward(worlds, acts)
    ensures |acts| + Remaining(worlds[|acts|]) <= Remaining(worlds[0])
  {
    hide Remaining;
    if |acts| == 0 {
    } else {
      var n := |acts| - 1;
      assert Follows(worlds[n], acts[n], worlds[n + 1]);
      AllFinish(worlds[..n + 1], acts[..n]);
      StepFinishes(worlds[n], acts[n]);
    }
  }

  /** Someone can take a step that is neither an arrival nor a failure. */
  ghost predicate CanMove(w: World) { exists a: Act :: Enabled(w, a) && !a.Begin? && !a.Fail? }

  predicate AllDone(w: World) { forall s :: s in w.sessions ==> w.sessions[s].phase.Done? }

  lemma UnfinishedMoves(w: World, s: Sid)
    requires Valid(w) && Unfinished(w, s)
    ensures CanMove(w)
  {
    hide Valid, Enabled;
    NeverStuck(w, s, true, true);
    if Waits(w, s) {
      var c :| c in w.sessions && WaitsFor(w, s, c);
      var a := NextAct(w.sessions[c], c, true, true);
      assert Enabled(w, a) && !a.Begin? && !a.Fail?;
    } else {
      var a := NextAct(w.sessions[s], s, true, true);
      assert Enabled(w, a) && !a.Begin? && !a.Fail?;
    }
  }

  /** The sessions stop exactly when every one of them is done: there is no deadlock. */
  lemma StoppedIsDone(w: World)
    requires Valid(w)
    ensures CanMove(w) <==> !AllDone(w)
  {
    hide Valid;
    if CanMove(w) {
      var a: Act :| Enabled(w, a) && !a.Begin? && !a.Fail?;
      assert Unfinished(w, a.s);
    } else {
      forall s | s in w.sessions ensures w.sessions[s].phase.Done? {
        if Unfinished(w, s) { UnfinishedMoves(w, s); }
      }
    }
  }

  lemma {:induction false} OnwardIsValid(worlds: seq<World>, acts: seq<Act>, i: nat)
    requires Onward(worlds, acts) && Valid(worlds[0]) && i <= |acts|
    ensures Valid(worlds[i])
  {
    hide Valid;
    if i == 0 {
    } else {
      OnwardIsValid(worlds, acts, i - 1);
      assert Follows(worlds[i - 1], acts[i - 1], worlds[i]);
      StepKeeps(worlds[i - 1], acts[i - 1]);
    }
  }

  /** From any reached world and under any schedule, a run with no arrivals that goes on
      while it can is finite and ends with every session done. */
  lemma EverySessionFinishes(worlds: seq<World>, acts: seq<Act>)
    requires Onward(worlds, acts) && Valid(worlds[0])
    ensures |acts| <= Remaining(worlds[0])
    ensures !CanMove(worlds[|acts|]) <==> AllDone(worlds[|acts|])
  {
    hide Valid, CanMove, AllDone;
    AllFinish(worlds, acts);
    OnwardIsValid(worlds, acts, |acts|);
    StoppedIsDone(worlds[|acts|]);
  }
}
