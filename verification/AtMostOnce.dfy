/** What the interleaved sessions come to: an atomic map from key to result, and answers
    that agree under a key. */
module AtMostOnce {
  import opened Text
  import opened Book
  import opened Protocol

  // ------------------------------------------------------------ refinement

  datatype Held = Held(hash: Digest, id: nat, entry: Entry)

  type Atomic = map<string, Held>

  ghost function Abs(db: Db): Atomic
    requires Paired(db)
  {
    map k | k in db.keys :: Held(db.keys[k].hash, db.keys[k].transaction.value,
      db.entries[db.keys[k].transaction.value])
  }

  /** What one step does to the map: nothing, one insertion, or one lookup. */
  datatype Op =
    | Silent
    | Put(key: string, held: Held)
    | Hit(key: string, hash: Digest, id: nat)
    | Miss(key: string, hash: Digest)

  ghost predicate AtomicStep(a: Atomic, op: Op, after: Atomic) {
    match op
    case Silent => after == a
    case Put(key, held) =>
      key !in a && (forall k :: k in a ==> a[k].id != held.id) && after == a[key := held]
    case Hit(key, hash, id) => after == a && key in a && a[key].hash == hash && a[key].id == id
    case Miss(key, hash) => after == a && key in a && a[key].hash != hash
  }

  /** Where a session takes effect: at its COMMIT, or at the read of a key already taken. */
  ghost function OpOf(w: World, a: Act): Op
    requires Enabled(w, a)
  {
    if a.s !in w.sessions || !w.sessions[a.s].request.PostRequest? then Silent
    else
      var x := w.sessions[a.s];
      var c := x.request.claim;
      if a.Commit? && x.phase.Settled? then Put(c.key, Held(c.hash, x.phase.id, x.request.entry))
      else if a.ReadBack? then
        match ReadBackPhase(Seen(w.db, x), c)
        case Found(id) => Hit(c.key, c.hash, id)
        case Done(Conflict) => Miss(c.key, c.hash)
        case _ => Silent
      else Silent
  }

  /** Each step of any session is one atomic step of the map. */
  lemma StepRefines(w: World, a: Act)
    requires Valid(w) && Enabled(w, a)
    ensures Paired(Do(w, a).db) && AtomicStep(Abs(w.db), OpOf(w, a), Abs(Do(w, a).db))
  {
    hide OneHolder, SnapshotsHeld, Truthful, Paired, IdsFresh, Keeps, Abs, ReadBackPhase, Published, InsertPhase;
    StepKeeps(w, a);
    if a.Commit? {
      CommitRefines(w, a.s, a.acknowledged);
    } else if a.ReadBack? {
      LookupRefines(w, a.s);
    }
  }

  lemma IdNotNamed(db: Db, id: nat)
    requires Paired(db) && id !in db.entries
    ensures forall k :: k in db.keys ==>
      db.keys[k].transaction.Some? && db.keys[k].transaction.value in db.entries && db.keys[k].transaction.value != id
  {
  }

  lemma PutRefines(db: Db, key: string, hash: Digest, id: nat, entry: Entry)
    requires Paired(db) && key !in db.keys && id !in db.entries
    ensures
      var later := db.(keys := db.keys[key := Row(hash, Some(id))], entries := db.entries[id := entry]);
      Paired(later) && AtomicStep(Abs(db), Put(key, Held(hash, id, entry)), Abs(later))
  {
    hide Paired, Keeps;
    PublishPairs(db, key, hash, id, entry);
    IdNotNamed(db, id);
    var later := db.(keys := db.keys[key := Row(hash, Some(id))], entries := db.entries[id := entry]);
    assert Abs(later) == Abs(db)[key := Held(hash, id, entry)];
  }

  lemma CodeRefines(db: Db, code: string)
    requires Paired(db)
    ensures Paired(db.(codes := db.codes + {code})) && Abs(db.(codes := db.codes + {code})) == Abs(db)
  {
    CodePairs(db, code);
  }

  lemma CommitRefines(w: World, s: Sid, acknowledged: bool)
    requires Valid(w) && Enabled(w, Commit(s, acknowledged)) && Paired(Do(w, Commit(s, acknowledged)).db)
    ensures var a := Commit(s, acknowledged); AtomicStep(Abs(w.db), OpOf(w, a), Abs(Do(w, a).db))
  {
    hide OneHolder, SnapshotsHeld, Honest, Paired, Abs;
    var x := w.sessions[s];
    assert Truthful(w.db, x);
    if x.phase.Settled? {
      assert Made(x, x.phase.id);
      PutRefines(w.db, x.request.claim.key, x.request.claim.hash, x.phase.id, x.request.entry);
    } else if x.phase.Opening? {
      CodeRefines(w.db, x.request.account.code);
    }
  }

  lemma HitRefines(seen: Db, db: Db, c: Claim)
    requires Paired(db) && Keeps(seen, db)
    ensures match ReadBackPhase(seen, c)
      case Found(id) => AtomicStep(Abs(db), Hit(c.key, c.hash, id), Abs(db))
      case Done(Conflict) => AtomicStep(Abs(db), Miss(c.key, c.hash), Abs(db))
      case _ => true
  {
  }

  lemma LookupRefines(w: World, s: Sid)
    requires Valid(w) && Enabled(w, ReadBack(s))
    ensures AtomicStep(Abs(w.db), OpOf(w, ReadBack(s)), Abs(w.db))
  {
    hide OneHolder, IdsFresh, Truthful, Paired, Abs, Keeps, ReadBackPhase;
    var x := w.sessions[s];
    assert Keeps(x.snapshot, w.db);
    KeepsItself(w.db);
    if x.request.PostRequest? { HitRefines(Seen(w.db, x), w.db, x.request.claim); }
  }

  /** Every run of the sessions is a run of the atomic map, step for step, from empty. */
  lemma RunRefines(worlds: seq<World>, acts: seq<Act>, i: nat)
    requires Run(worlds, acts) && i < |acts|
    ensures Paired(worlds[0].db) && Abs(worlds[0].db) == map[]
    ensures Paired(worlds[i].db) && Paired(worlds[i + 1].db) && Enabled(worlds[i], acts[i])
    ensures AtomicStep(Abs(worlds[i].db), OpOf(worlds[i], acts[i]), Abs(worlds[i + 1].db))
  {
    RunIsValid(worlds, acts, i);
    assert Follows(worlds[i], acts[i], worlds[i + 1]);
    StepRefines(worlds[i], acts[i]);
  }

  /** What is committed under a key never changes. */
  lemma {:induction false} CommittedIsFinal(worlds: seq<World>, acts: seq<Act>, i: nat, j: nat)
    requires Run(worlds, acts) && i <= j <= |acts|
    ensures Keeps(worlds[i].db, worlds[j].db)
  {
    if i == j {
      KeepsItself(worlds[i].db);
    } else {
      CommittedIsFinal(worlds, acts, i, j - 1);
      RunIsValid(worlds, acts, j - 1);
      assert Follows(worlds[j - 1], acts[j - 1], worlds[j]);
      StepKeeps(worlds[j - 1], acts[j - 1]);
      KeepsTransitive(worlds[i].db, worlds[j - 1].db, worlds[j].db);
    }
  }

  /** Committed keys and committed entries match one to one. */
  lemma KeysAndEntriesMatch(worlds: seq<World>, acts: seq<Act>, i: nat)
    requires Run(worlds, acts) && i <= |acts|
    ensures var db := worlds[i].db;
      && (forall k :: k in db.keys ==> db.keys[k].transaction.Some? && db.keys[k].transaction.value in db.entries)
      && (forall id :: id in db.entries ==> exists k :: k in db.keys && db.keys[k].transaction == Some(id))
      && (forall k, j :: k in db.keys && j in db.keys && k != j ==> db.keys[k].transaction != db.keys[j].transaction)
  {
    RunIsValid(worlds, acts, i);
  }

  // ---------------------------------------------------------------- answers

  predicate Is201(answer: Answer) { answer.Created? || answer.Replayed? }

  predicate Answered(w: World, s: Sid, answer: Answer) { InPhase(w, s, Done(answer)) }

  /** Two 201s under one key: one id, one body, one fingerprint, and at most one of them
      not a replay. */
  lemma AnswersAgree(worlds: seq<World>, acts: seq<Act>, i: nat, s: Sid, c: Sid, a: Answer, b: Answer)
    requires Run(worlds, acts) && i <= |acts| && s != c
    requires Answered(worlds[i], s, a) && Answered(worlds[i], c, b) && Is201(a) && Is201(b)
    requires Asked(worlds[i].sessions[s].request) == Asked(worlds[i].sessions[c].request)
    ensures a.id == b.id && a.entry == b.entry
    ensures worlds[i].sessions[s].request.PostRequest? && worlds[i].sessions[c].request.PostRequest?
    ensures worlds[i].sessions[s].request.claim == worlds[i].sessions[c].request.claim
    ensures a.Replayed? || b.Replayed?
  {
    hide Paired, OneHolder, SnapshotsHeld;
    RunIsValid(worlds, acts, i);
    var w := worlds[i];
    assert Truthful(w.db, w.sessions[s]) && Truthful(w.db, w.sessions[c]);
    assert a.Created? ==> Made(w.sessions[s], a.id);
    assert b.Created? ==> Made(w.sessions[c], b.id);
  }

  /** The row under a committed key is one session's request. */
  ghost predicate Sourced(w: World) {
    Paired(w.db) && forall k :: k in w.db.keys ==> exists s :: SourceOf(w, k, s)
  }

  predicate SourceOf(w: World, key: string, s: Sid) {
    && s in w.sessions && w.sessions[s].request.PostRequest?
    && w.sessions[s].request.claim.key == key && key in w.db.keys && w.db.keys[key].transaction.Some?
    && Stored(w.db, w.sessions[s].request.claim, w.db.keys[key].transaction.value, w.sessions[s].request.entry)
  }

  lemma RequestsKept(w: World, a: Act, s: Sid)
    requires Enabled(w, a) && s in w.sessions
    ensures s in Do(w, a).sessions && Do(w, a).sessions[s].request == w.sessions[s].request
  {
  }

  lemma SourceKept(w: World, after: World, key: string, s: Sid)
    requires SourceOf(w, key, s) && Keeps(w.db, after.db)
    requires s in after.sessions && after.sessions[s].request == w.sessions[s].request
    ensures SourceOf(after, key, s)
  {
  }

  /** A key new to the ledger was published by the session that acts. */
  lemma NewSource(w: World, a: Act, key: string)
    requires Valid(w) && Enabled(w, a) && key in Do(w, a).db.keys && key !in w.db.keys
    ensures SourceOf(Do(w, a), key, a.s)
  {
    hide OneHolder, SnapshotsHeld, Paired, IdsFresh, Honest;
    assert a.Commit?;
    assert Truthful(w.db, w.sessions[a.s]);
  }

  lemma StepSources(w: World, a: Act)
    requires Valid(w) && Sourced(w) && Enabled(w, a)
    ensures Sourced(Do(w, a))
  {
    hide OneHolder, SnapshotsHeld, Paired, Truthful, Do, Keeps, IdsFresh, Enabled;
    var after := Do(w, a);
    StepKeeps(w, a);
    assert Paired(after.db);
    forall k | k in after.db.keys ensures exists s :: SourceOf(after, k, s) {
      if k in w.db.keys {
        var s :| SourceOf(w, k, s);
        RequestsKept(w, a, s);
        SourceKept(w, after, k, s);
      } else {
        NewSource(w, a, k);
      }
    }
  }

  lemma {:induction false} RunIsSourced(worlds: seq<World>, acts: seq<Act>, i: nat)
    requires Run(worlds, acts) && i <= |acts|
    ensures Sourced(worlds[i])
  {
    hide Valid, Sourced;
    if i == 0 {
      NothingIsSourced();
    } else {
      RunIsSourced(worlds, acts, i - 1);
      RunIsValid(worlds, acts, i - 1);
      assert Follows(worlds[i - 1], acts[i - 1], worlds[i]);
      StepSources(worlds[i - 1], acts[i - 1]);
    }
  }

  lemma NothingIsSourced()
    ensures Sourced(NOTHING)
  {
  }

  /** Requests with one fingerprint are one request: what hashing an injective encoding gives. */
  ghost predicate Fingerprinted(w: World) {
    forall s, c :: s in w.sessions && c in w.sessions
      && w.sessions[s].request.PostRequest? && w.sessions[c].request.PostRequest?
      && w.sessions[s].request.claim.hash == w.sessions[c].request.claim.hash
      ==> w.sessions[s].request.entry == w.sessions[c].request.entry
  }

  /** Where a fingerprint tells requests apart, every 201, replayed or not, carries the
      entry its own request sent. */
  lemma AnswerIsTheRequests(worlds: seq<World>, acts: seq<Act>, i: nat, s: Sid, a: Answer)
    requires Run(worlds, acts) && i <= |acts| && Answered(worlds[i], s, a) && Is201(a)
    requires Fingerprinted(worlds[i])
    ensures worlds[i].sessions[s].request.PostRequest? && a.entry == worlds[i].sessions[s].request.entry
  {
    hide Paired, OneHolder, SnapshotsHeld, IdsFresh;
    var w := worlds[i];
    RunIsValid(worlds, acts, i);
    RunIsSourced(worlds, acts, i);
    assert Truthful(w.db, w.sessions[s]);
    var source :| SourceOf(w, w.sessions[s].request.claim.key, source);
  }

  /** A different fingerprint under a committed key is never given a 201, and a conflict
      is only ever given for one. */
  lemma OtherRequestsConflict(worlds: seq<World>, acts: seq<Act>, i: nat, s: Sid, a: Answer)
    requires Run(worlds, acts) && i <= |acts| && Answered(worlds[i], s, a)
    requires worlds[i].sessions[s].request.PostRequest?
    ensures var c, db := worlds[i].sessions[s].request.claim, worlds[i].db;
      && (Is201(a) ==> c.key in db.keys && db.keys[c.key].hash == c.hash)
      && (a.Conflict? ==> c.key in db.keys && db.keys[c.key].hash != c.hash)
  {
    RunIsValid(worlds, acts, i);
    assert Truthful(worlds[i].db, worlds[i].sessions[s]);
  }

  /** No code is opened twice. */
  ghost predicate OpenedOnce(w: World) {
    forall s, c :: Answered(w, s, Opened) && Answered(w, c, Opened) && s != c ==>
      Asked(w.sessions[s].request) != Asked(w.sessions[c].request)
  }

  lemma StepOpensOnce(w: World, a: Act)
    requires Valid(w) && OpenedOnce(w) && Enabled(w, a)
    ensures OpenedOnce(Do(w, a))
  {
    hide OneHolder, SnapshotsHeld, Paired, IdsFresh, Keeps, Do;
    var after := Do(w, a);
    StepSpares(w, a);
    if Answered(after, a.s, Opened) {
      NewlyOpened(w, a);
      forall c | Answered(w, c, Opened) && c != a.s
        ensures Asked(w.sessions[c].request) != Asked(after.sessions[a.s].request)
      {
        assert Truthful(w.db, w.sessions[c]);
      }
    }
  }

  /** A session comes to be answered Opened where its code was in no ledger before. */
  lemma NewlyOpened(w: World, a: Act)
    requires Valid(w) && Enabled(w, a) && Answered(Do(w, a), a.s, Opened)
    ensures a.Commit? && a.s in w.sessions && w.sessions[a.s].request == Do(w, a).sessions[a.s].request
    ensures w.sessions[a.s].request.OpenRequest? && w.sessions[a.s].request.account.code !in w.db.codes
  {
    hide OneHolder, SnapshotsHeld, Paired, IdsFresh, Honest;
    if a.s in w.sessions { assert Truthful(w.db, w.sessions[a.s]); }
  }

  lemma {:induction false} RunOpensOnce(worlds: seq<World>, acts: seq<Act>, i: nat)
    requires Run(worlds, acts) && i <= |acts|
    ensures OpenedOnce(worlds[i])
  {
    hide Valid;
    if i == 0 {
    } else {
      RunOpensOnce(worlds, acts, i - 1);
      RunIsValid(worlds, acts, i - 1);
      assert Follows(worlds[i - 1], acts[i - 1], worlds[i]);
      StepOpensOnce(worlds[i - 1], acts[i - 1]);
    }
  }

  /** An account is answered as opened only where it is in the ledger, and to one session. */
  lemma OpenedIsHeld(worlds: seq<World>, acts: seq<Act>, i: nat, s: Sid)
    requires Run(worlds, acts) && i <= |acts| && Answered(worlds[i], s, Opened)
    ensures var r := worlds[i].sessions[s].request;
      && r.OpenRequest? && r.account.code in worlds[i].db.codes
      && forall c :: c != s && Answered(worlds[i], c, Opened) ==>
           worlds[i].sessions[c].request.OpenRequest? && worlds[i].sessions[c].request.account.code != r.account.code
  {
    hide OneHolder, SnapshotsHeld, Paired, IdsFresh;
    RunIsValid(worlds, acts, i);
    RunOpensOnce(worlds, acts, i);
    assert Truthful(worlds[i].db, worlds[i].sessions[s]);
    forall c | c != s && Answered(worlds[i], c, Opened) ensures worlds[i].sessions[c].request.OpenRequest? {
      assert Truthful(worlds[i].db, worlds[i].sessions[c]);
    }
  }

  // ---------------------------------------------- the branches replay cannot reach

  predicate FindsOrConflicts(seen: Db, r: Request) {
    r.PostRequest? && (ReadBackPhase(seen, r.claim).Found? || ReadBackPhase(seen, r.claim) == Done(Conflict))
  }

  /** At READ COMMITTED the row a 23505 names is always there, with its transaction, and
      so is the entry it names: the read-back is a replay or a conflict. */
  lemma ReadCommittedFindsTheRow(worlds: seq<World>, acts: seq<Act>, i: nat, s: Sid)
    requires Run(worlds, acts) && i <= |acts| && s in worlds[i].sessions
    requires worlds[i].sessions[s].isolation.ReadCommitted?
    ensures worlds[i].sessions[s].phase.Duplicate? ==> FindsOrConflicts(worlds[i].db, worlds[i].sessions[s].request)
    ensures !Answered(worlds[i], s, Broken)
  {
    RunIsValid(worlds, acts, i);
    assert Truthful(worlds[i].db, worlds[i].sessions[s]);
  }

  lemma BrokenIsMissing(seen: Db, c: Claim)
    requires Paired(seen)
    ensures ReadBackPhase(seen, c) == Done(Broken) <==> c.key !in seen.keys
  {
  }

  /** At REPEATABLE READ the read-back misses the row exactly when the holder committed
      after the session's snapshot was taken. */
  lemma SnapshotMissesTheRow(w: World, s: Sid)
    requires Valid(w) && InPhase(w, s, Duplicate) && w.sessions[s].isolation.RepeatableRead?
    ensures Enabled(w, ReadBack(s))
    ensures var c := w.sessions[s].request.claim;
      c.key in w.db.keys &&
      (InPhase(Do(w, ReadBack(s)), s, Done(Broken)) <==> c.key !in w.sessions[s].snapshot.keys)
  {
    hide OneHolder, IdsFresh, Honest, Paired, Keeps, ReadBackPhase;
    assert Truthful(w.db, w.sessions[s]);
    BrokenIsMissing(w.sessions[s].snapshot, w.sessions[s].request.claim);
  }
}
