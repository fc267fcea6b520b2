/** Whole runs of calls in one caller's transaction, and what they leave: exactly the
    effect of the accepted calls, one result to a key, and entries that read back as
    they were written. */
module Calls {
  import opened Text
  import opened Book
  import opened Engine
  import opened Invariant
  import opened Simple
  import opened LedgerCalls

  datatype Request = Opens(account: AccountRequest) | Posts(entry: Entry) | Claims(claim: Claim, write: Write)

  datatype Answered = OpenAnswer(open: OpenReply) | PostAnswer(post: PostReply) | OnceAnswer(once: OnceReply)

  ghost function Take(b: Ledger, q: Request, now: int): (Ledger, Answered) {
    match q
    case Opens(a) => var r := Simple.Open(b, a); (r.0, OpenAnswer(r.1))
    case Posts(e) => var r := Simple.Post(b, e, now); (r.0, PostAnswer(r.1))
    case Claims(c, w) => var r := Simple.Once(b, c, w, now); (r.0, OnceAnswer(r.1))
  }

  ghost function TakeAll(b: Ledger, qs: seq<Request>, now: int): (r: (Ledger, seq<Answered>))
    ensures |r.1| == |qs|
  {
    if qs == [] then (b, [])
    else
      var (before, answers) := TakeAll(b, qs[..|qs| - 1], now);
      var (after, answer) := Take(before, qs[|qs| - 1], now);
      (after, answers + [answer])
  }

  predicate Accepted(r: Answered) {
    match r
    case OpenAnswer(o) => o.Opened?
    case PostAnswer(p) => p.Posted?
    case OnceAnswer(o) => o.Recorded? && !o.record.replayed
  }

  /** Any list of calls, accepted and refused in any pattern, over any savepoints: the
      tables are what the accepted ones make of them, and the caller's savepoints are
      all still there. */
  method CallAll(tx: Tx, qs: seq<Request>) returns (rs: seq<Answered>)
    requires Valid(tx.session) && !tx.session.aborted
    modifies tx
    ensures Valid(tx.session) && !tx.session.aborted
    ensures (LedgerOf(tx.session), rs) == TakeAll(LedgerOf(old(tx.session)), qs, old(tx.session.now))
    ensures old(tx.session.saves) <= tx.session.saves
  {
    hide Valid, Simple.Post, Simple.Open, Simple.Once;
    ghost var s0 := tx.session;
    rs := [];
    for i := 0 to |qs|
      invariant Valid(tx.session) && !tx.session.aborted && tx.session.now == s0.now
      invariant (LedgerOf(tx.session), rs) == TakeAll(LedgerOf(s0), qs[..i], s0.now)
      invariant s0.saves <= tx.session.saves
    {
      assert qs[..i + 1][..i] == qs[..i];
      match qs[i] {
        case Opens(a) => var r := tx.Open(a); rs := rs + [OpenAnswer(r)];
        case Posts(e) => var r := tx.Post(e); rs := rs + [PostAnswer(r)];
        case Claims(c, w) => var r := tx.Once(c, w); rs := rs + [OnceAnswer(r)];
      }
    }
    assert qs[..|qs|] == qs;
  }

  /** A refused call, and a replay, change no table. */
  lemma RefusedChangesNothing(b: Ledger, q: Request, now: int)
    requires !Accepted(Take(b, q, now).1)
    ensures Take(b, q, now).0.tables == b.tables
  {
  }

  /** The requests that were accepted, in order, each with the defaults it drew. */
  ghost function Effects(b: Ledger, qs: seq<Request>, now: int): seq<(Request, Supply)> {
    if qs == [] then []
    else
      var before := TakeAll(b, qs[..|qs| - 1], now).0;
      var last := qs[|qs| - 1];
      Effects(b, qs[..|qs| - 1], now) + if Accepted(Take(before, last, now).1) then [(last, before.supply)] else []
  }

  /** The accepted requests alone, replayed against the same tables with the same defaults. */
  ghost function Apply(t: Tables, effects: seq<(Request, Supply)>, now: int): Tables {
    if effects == [] then t
    else
      var last := effects[|effects| - 1];
      Take(Ledger(Apply(t, effects[..|effects| - 1], now), last.1), last.0, now).0.tables
  }

  /** The final tables are exactly the effect of the accepted calls, in order. */
  lemma {:induction false} OnlyTheAcceptedCount(b: Ledger, qs: seq<Request>, now: int)
    ensures TakeAll(b, qs, now).0.tables == Apply(b.tables, Effects(b, qs, now), now)
    ensures |Effects(b, qs, now)| <= |qs|
  {
    if qs == [] {
    } else {
      var init, last := qs[..|qs| - 1], qs[|qs| - 1];
      OnlyTheAcceptedCount(b, init, now);
      var before := TakeAll(b, init, now).0;
      if Accepted(Take(before, last, now).1) {
        var effects := Effects(b, qs, now);
        assert effects == Effects(b, init, now) + [(last, before.supply)];
        assert effects[..|effects| - 1] == Effects(b, init, now);
        assert Ledger(before.tables, before.supply) == before;
      } else {
        RefusedChangesNothing(before, last, now);
        assert Effects(b, init, now) + [] == Effects(b, init, now);
        assert Effects(b, qs, now) == Effects(b, init, now);
      }
    }
  }

  // ------------------------------------------------------ one result to a key

  lemma {:induction false} CallsExtend(b: Ledger, calls: seq<Call>, now: int)
    ensures Extends(b.tables, RunCalls(b, calls, now).0.tables)
  {
    if calls == [] {
    } else {
      CallsExtend(b, calls[..|calls| - 1], now);
    }
  }

  lemma TakeExtends(b: Ledger, q: Request, now: int)
    ensures Extends(b.tables, Take(b, q, now).0.tables)
  {
    if q.Claims? {
      var reserved := b.(tables := WithKey(b.tables, q.claim.key, KeyRow(q.claim.hash, None)));
      CallsExtend(reserved, q.write.calls, now);
      CallsKeepKeys(reserved, q.write.calls, now);
    }
  }

  lemma {:induction false} TakeAllExtends(b: Ledger, qs: seq<Request>, now: int)
    ensures Extends(b.tables, TakeAll(b, qs, now).0.tables)
  {
    if qs == [] {
    } else {
      TakeAllExtends(b, qs[..|qs| - 1], now);
      TakeExtends(TakeAll(b, qs[..|qs| - 1], now).0, qs[|qs| - 1], now);
    }
  }

  /** A key that was recorded answers every later claim under it: the same request with
      the first transaction and no write, any other with a refusal. */
  lemma ClaimIsFinal(b: Ledger, c: Claim, w: Write, later: seq<Request>, again: Claim, other: Write, now: int)
    requires again.key == c.key && KeyCheck(again.key, again.hash).None?
    ensures var (after, first) := Simple.Once(b, c, w, now);
      first.Recorded? ==>
        var ledger := TakeAll(after, later, now).0;
        Simple.Once(ledger, again, other, now) ==
          (ledger, if again.hash == c.hash then Recorded(Record(c.key, first.record.transaction, true))
                   else Turned(KeyReused))
  {
    var (after, first) := Simple.Once(b, c, w, now);
    if first.Recorded? {
      TakeAllExtends(after, later, now);
      assert after.tables.keys[c.key] == KeyRow(c.hash, Some(first.record.transaction));
    }
  }

  /** Over any run, two records under one key name one transaction, for one request, and
      only the first of them wrote it. */
  lemma OneResultPerKey(b: Ledger, qs: seq<Request>, now: int, i: nat, j: nat)
    requires i < j < |qs| && qs[i].Claims? && qs[j].Claims? && qs[i].claim.key == qs[j].claim.key
    ensures var rs := TakeAll(b, qs, now).1;
      rs[i].OnceAnswer? && rs[j].OnceAnswer? &&
      (rs[i].once.Recorded? && rs[j].once.Recorded? ==>
        rs[j].once.record == Record(qs[i].claim.key, rs[i].once.record.transaction, true)
        && qs[j].claim.hash == qs[i].claim.hash)
  {
    hide Simple.Once, Extends, Simple.Post, Simple.Open;
    AnswerAt(b, qs, now, i);
    AnswerAt(b, qs, now, j);
    var rs := TakeAll(b, qs, now).1;
    if rs[i].once.Recorded? && rs[j].once.Recorded? {
      var before, after := TakeAll(b, qs[..i], now).0, TakeAll(b, qs[..i + 1], now).0;
      assert qs[..i + 1][..i] == qs[..i];
      RecordedIsHeld(before, qs[i].claim, qs[i].write, now);
      RunsCompose(b, qs[..i + 1], qs[i + 1..j], now);
      assert qs[..i + 1] + qs[i + 1..j] == qs[..j];
      TakeAllExtends(after, qs[i + 1..j], now);
      HeldThroughout(after.tables, TakeAll(b, qs[..j], now).0.tables, qs[i].claim.key);
      HeldIsReplayed(TakeAll(b, qs[..j], now).0, qs[j].claim, qs[j].write, now);
    }
  }

  lemma RecordedIsHeld(b: Ledger, c: Claim, w: Write, now: int)
    ensures var (after, r) := Simple.Once(b, c, w, now);
      r.Recorded? ==>
        c.key in after.tables.keys && r.record.key == c.key
        && after.tables.keys[c.key] == KeyRow(c.hash, Some(r.record.transaction))
  {
  }

  /** A settled key answers a well-formed claim with its own transaction, to the request
      that settled it and to no other, and nothing is written. */
  lemma HeldIsReplayed(b: Ledger, c: Claim, w: Write, now: int)
    requires c.key in b.tables.keys && b.tables.keys[c.key].transaction.Some?
    ensures var (after, r) := Simple.Once(b, c, w, now);
      var row := b.tables.keys[c.key];
      && after == b
      && (r.Recorded? ==> r.record == Record(c.key, row.transaction.value, true) && c.hash == row.hash)
      && (KeyCheck(c.key, c.hash).None? ==> if c.hash == row.hash then r.Recorded? else r == Turned(KeyReused))
  {
  }

  lemma HeldThroughout(earlier: Tables, later: Tables, key: string)
    requires Extends(earlier, later) && key in earlier.keys && earlier.keys[key].transaction.Some?
    ensures key in later.keys && later.keys[key] == earlier.keys[key]
  {
  }

  lemma {:induction false} AnswerAt(b: Ledger, qs: seq<Request>, now: int, i: nat)
    requires i < |qs|
    ensures TakeAll(b, qs, now).1[i] == Take(TakeAll(b, qs[..i], now).0, qs[i], now).1
  {
    if i == |qs| - 1 {
    } else {
      AnswerAt(b, qs[..|qs| - 1], now, i);
      assert qs[..|qs| - 1][..i] == qs[..i];
    }
  }

  lemma {:induction false} RunsCompose(b: Ledger, first: seq<Request>, second: seq<Request>, now: int)
    ensures TakeAll(b, first + second, now).0 == TakeAll(TakeAll(b, first, now).0, second, now).0
    decreases |second|
  {
    if second == [] {
      assert first + second == first;
    } else {
      RunsCompose(b, first, second[..|second| - 1], now);
      assert (first + second)[..|first + second| - 1] == first + second[..|second| - 1];
    }
  }
}
