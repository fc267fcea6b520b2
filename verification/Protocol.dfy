/** Many write sessions over one ledger, their steps interleaved in any order, each free
    to crash, be cancelled or lose its commit acknowledgement at any step. A reservation
    waits on an uncommitted row of the same key; what a session reads depends on its
    isolation level. */
module Protocol {
  import opened Text
  import opened Book
  import Engine
  import Simple

  type Sid = nat
  type Claim = Simple.Claim
  type Entry = Simple.Entry

  // ---------------------------------------------------------------- state

  datatype Isolation = ReadCommitted | RepeatableRead

  datatype Request = PostRequest(claim: Claim, entry: Entry) | OpenRequest(account: Simple.AccountRequest)

  datatype Row = Row(hash: Digest, transaction: Option<nat>)

  /** What is committed. */
  datatype Db = Db(keys: map<string, Row>, entries: map<nat, Entry>, codes: set<string>)

  datatype Answer =
    | Created(id: nat, entry: Entry)
    | Replayed(id: nat, entry: Entry)
    | Conflict
    | Refused
    | Opened
    | Broken
    | NoAnswer

  datatype Phase =
    | Started
    | Asking                            // the INSERT is sent, and may be waiting
    | Holding                           // its unique-index entry is in, uncommitted
    | Wrote(id: nat)                    // the entry is posted
    | Settled(id: nat)                  // the result is under the key
    | Duplicate                         // 23505, and the savepoint is back
    | Found(id: nat)                    // the key's row is read
    | Replaying(id: nat, entry: Entry)  // the first result is read, nothing left but COMMIT
    | Opening                           // the account is read back, nothing left but COMMIT
    | Done(answer: Answer)

  datatype Session = Session(request: Request, isolation: Isolation, phase: Phase, snapshot: Db)

  datatype World = World(db: Db, sessions: map<Sid, Session>, next: nat)

  const NOTHING := World(Db(map[], map[], {}), map[], 0)

  // ---------------------------------------------------------------- steps

  datatype Act =
    | Begin(s: Sid, request: Request, isolation: Isolation)
    | Ask(s: Sid)
    | Insert(s: Sid)
    | Write(s: Sid, taken: bool)
    | Record(s: Sid)
    | ReadBack(s: Sid)
    | ReadEntry(s: Sid)
    | Commit(s: Sid, acknowledged: bool)
    | Fail(s: Sid)

  /** The unique-index entries two sessions can meet on. */
  datatype Unique = AKey(key: string) | ACode(code: string)

  function Asked(r: Request): Unique {
    if r.PostRequest? then AKey(r.claim.key) else ACode(r.account.code)
  }

  predicate Holds(x: Session) {
    x.phase.Holding? || x.phase.Wrote? || x.phase.Settled? || x.phase.Opening?
  }

  predicate Unfinished(w: World, s: Sid) { s in w.sessions && !w.sessions[s].phase.Done? }

  predicate InPhase(w: World, s: Sid, phase: Phase) { s in w.sessions && w.sessions[s].phase == phase }

  /** A CHECK is asked before the unique index, so it never waits. */
  predicate Malformed(r: Request) {
    match r
    case PostRequest(claim, _) => Engine.KeyCheck(claim.key, claim.hash).Some?
    case OpenRequest(a) => Engine.KindOf(a.kind).None? || Engine.AccountCheck(a.code, a.name, a.currency).Some?
  }

  /** `s` has sent an INSERT that meets an uncommitted row of `holder`'s. */
  predicate WaitsFor(w: World, s: Sid, holder: Sid) {
    && InPhase(w, s, Asking) && !Malformed(w.sessions[s].request)
    && holder != s && holder in w.sessions && Holds(w.sessions[holder])
    && Asked(w.sessions[holder].request) == Asked(w.sessions[s].request)
  }

  predicate Taken(db: Db, u: Unique) {
    match u
    case AKey(key) => key in db.keys
    case ACode(code) => code in db.codes
  }

  /** What a statement of the session's reads: the latest commits, or its one snapshot. */
  function Seen(db: Db, x: Session): Db { if x.isolation.ReadCommitted? then db else x.snapshot }

  predicate ToCommit(x: Session) { x.phase.Settled? || x.phase.Replaying? || x.phase.Opening? }

  ghost predicate Enabled(w: World, a: Act) {
    match a
    case Begin(s, _, _) => s !in w.sessions
    case Ask(s) => InPhase(w, s, Started)
    case Insert(s) => InPhase(w, s, Asking) && forall c :: c in w.sessions ==> !WaitsFor(w, s, c)
    case Write(s, _) => InPhase(w, s, Holding) && w.sessions[s].request.PostRequest?
    case Record(s) => s in w.sessions && w.sessions[s].phase.Wrote?
    case ReadBack(s) =>
      || (InPhase(w, s, Duplicate) && w.sessions[s].request.PostRequest?)
      || (InPhase(w, s, Holding) && w.sessions[s].request.OpenRequest?)
    case ReadEntry(s) => s in w.sessions && w.sessions[s].phase.Found?
    case Commit(s, _) => s in w.sessions && ToCommit(w.sessions[s])
    case Fail(s) => Unfinished(w, s)
  }

  function Move(w: World, s: Sid, phase: Phase): World
    requires s in w.sessions
  {
    w.(sessions := w.sessions[s := w.sessions[s].(phase := phase)])
  }

  /** replay, over what the session can see. */
  function ReadBackPhase(db: Db, c: Claim): Phase {
    if c.key !in db.keys then Done(Broken)
    else if db.keys[c.key].hash != c.hash then Done(Conflict)
    else if db.keys[c.key].transaction.None? then Done(Broken)
    else Found(db.keys[c.key].transaction.value)
  }

  function InsertPhase(w: World, r: Request): Phase {
    if Malformed(r) then Done(Refused)
    else if !Taken(w.db, Asked(r)) then Holding
    else if r.PostRequest? then Duplicate
    else Done(Refused)
  }

  /** What the session's COMMIT publishes. */
  function Published(db: Db, x: Session): Db {
    match x.phase
    case Settled(id) =>
      if x.request.PostRequest? then
        db.(keys := db.keys[x.request.claim.key := Row(x.request.claim.hash, Some(id))],
            entries := db.entries[id := x.request.entry])
      else db
    case Opening =>
      if x.request.OpenRequest? then db.(codes := db.codes + {x.request.account.code}) else db
    case _ => db
  }

  function AnswerAt(x: Session): Answer {
    match x.phase
    case Settled(id) => if x.request.PostRequest? then Created(id, x.request.entry) else Broken
    case Replaying(id, entry) => Replayed(id, entry)
    case Opening => Opened
    case _ => NoAnswer
  }

  ghost function Do(w: World, a: Act): World
    requires Enabled(w, a)
  {
    match a
    case Begin(s, request, isolation) => w.(sessions := w.sessions[s := Session(request, isolation, Started, w.db)])
    case Ask(s) => w.(sessions := w.sessions[s := w.sessions[s].(phase := Asking, snapshot := w.db)])
    case Insert(s) => Move(w, s, InsertPhase(w, w.sessions[s].request))
    case Write(s, taken) =>
      Move(w, s, if taken then Wrote(w.next) else Done(Refused)).(next := w.next + 1)
    case Record(s) => Move(w, s, Settled(w.sessions[s].phase.id))
    case ReadBack(s) =>
      var x := w.sessions[s];
      Move(w, s, if x.request.PostRequest? then ReadBackPhase(Seen(w.db, x), x.request.claim) else Opening)
    case ReadEntry(s) =>
      var x := w.sessions[s];
      var entries := Seen(w.db, x).entries;
      Move(w, s, if x.phase.id in entries then Replaying(x.phase.id, entries[x.phase.id]) else Done(Broken))
    case Commit(s, acknowledged) =>
      var x := w.sessions[s];
      Move(w, s, Done(if acknowledged then AnswerAt(x) else NoAnswer)).(db := Published(w.db, x))
    case Fail(s) => Move(w, s, Done(NoAnswer))
  }

  ghost predicate Follows(w: World, a: Act, after: World) { Enabled(w, a) && after == Do(w, a) }

  /** `worlds` is a run from nothing: every interleaving is one. */
  ghost predicate Run(worlds: seq<World>, acts: seq<Act>) {
    && |worlds| == |acts| + 1 && worlds[0] == NOTHING
    && forall i :: 0 <= i < |acts| ==> Follows(worlds[i], acts[i], worlds[i + 1])
  }

  // ------------------------------------------------------------- invariant

  /** Committed keys and committed entries are the two ends of one bijection. */
  ghost predicate Paired(db: Db) {
    && (forall k :: k in db.keys ==> db.keys[k].transaction.Some? && db.keys[k].transaction.value in db.entries)
    && (forall id :: id in db.entries ==> exists k :: k in db.keys && db.keys[k].transaction == Some(id))
    && (forall k, j :: k in db.keys && j in db.keys && db.keys[k].transaction == db.keys[j].transaction ==> k == j)
  }

  /** Nothing committed is changed or taken back. */
  ghost predicate Keeps(earlier: Db, later: Db) {
    && (forall k :: k in earlier.keys ==> k in later.keys && later.keys[k] == earlier.keys[k])
    && (forall id :: id in earlier.entries ==> id in later.entries && later.entries[id] == earlier.entries[id])
    && earlier.codes <= later.codes
  }

  predicate Stored(db: Db, c: Claim, id: nat, entry: Entry) {
    Resulted(db, c, id) && id in db.entries && db.entries[id] == entry
  }

  /** What a session's phase says of the ledger. */
  ghost predicate Truthful(db: Db, x: Session) {
    Placed(db, x) && Honest(db, x, Told(x))
  }

  predicate Resulted(db: Db, c: Claim, id: nat) { c.key in db.keys && db.keys[c.key] == Row(c.hash, Some(id)) }

  ghost predicate Placed(db: Db, x: Session) {
    && (Holds(x) ==> !Taken(db, Asked(x.request)))
    && (x.phase.Wrote? || x.phase.Settled? || x.phase.Duplicate? || x.phase.Found? ==> x.request.PostRequest?)
    && (x.phase.Opening? ==> x.request.OpenRequest?)
    && (x.phase.Duplicate? ==> x.request.claim.key in db.keys)
    && (x.phase.Found? ==> Resulted(db, x.request.claim, x.phase.id) && x.phase.id in Seen(db, x).entries)
  }

  ghost predicate Honest(db: Db, x: Session, answer: Answer) {
    match answer
    case Created(id, entry) => x.request.PostRequest? && Stored(db, x.request.claim, id, entry) &&
      entry == x.request.entry
    case Replayed(id, entry) => x.request.PostRequest? && Stored(db, x.request.claim, id, entry)
    case Conflict => x.request.PostRequest? && x.request.claim.key in db.keys
      && db.keys[x.request.claim.key].hash != x.request.claim.hash
    case Broken => x.request.PostRequest? && x.isolation.RepeatableRead? && x.request.claim.key !in x.snapshot.keys
    case Opened => x.request.OpenRequest? && x.request.account.code in db.codes
    case _ => true
  }

  /** The answer a session has given, or is about to. */
  function Told(x: Session): Answer {
    match x.phase
    case Replaying(id, entry) => Replayed(id, entry)
    case Done(answer) => answer
    case _ => NoAnswer
  }

  /** An id the session generated, and is answerable for. */
  predicate Made(x: Session, id: nat) {
    ((x.phase.Wrote? || x.phase.Settled?) && x.phase.id == id)
    || (x.phase.Done? && x.phase.answer.Created? && x.phase.answer.id == id)
  }

  ghost predicate IdsFresh(w: World) {
    && (forall id :: id in w.db.entries ==> id < w.next)
    && (forall s, id: nat :: s in w.sessions && Made(w.sessions[s], id) ==> id < w.next)
    && (forall s, c, id: nat ::
         s in w.sessions && c in w.sessions && s != c && Made(w.sessions[s], id) ==> !Made(w.sessions[c], id))
    && (forall s, id: nat :: s in w.sessions && Holds(w.sessions[s]) && Made(w.sessions[s], id) ==> id !in w.db.entries)
  }

  ghost predicate OneHolder(w: World) {
    forall s, c :: s in w.sessions && c in w.sessions && s != c && Holds(w.sessions[s]) && Holds(w.sessions[c]) ==>
      Asked(w.sessions[s].request) != Asked(w.sessions[c].request)
  }

  ghost predicate SnapshotsHeld(w: World) {
    forall s :: s in w.sessions ==> Keeps(w.sessions[s].snapshot, w.db) && Paired(w.sessions[s].snapshot)
  }

  ghost predicate Valid(w: World) {
    && Paired(w.db) && IdsFresh(w) && OneHolder(w) && SnapshotsHeld(w)
    && forall s :: s in w.sessions ==> Truthful(w.db, w.sessions[s])
  }

  // --------------------------------------------------------- every step keeps it

  lemma StepSpares(w: World, a: Act)
    requires Enabled(w, a)
    ensures a.s in Do(w, a).sessions
    ensures forall c :: c in Do(w, a).sessions <==> c in w.sessions || c == a.s
    ensures forall c :: c in w.sessions && c != a.s ==> Do(w, a).sessions[c] == w.sessions[c]
  {
  }

  lemma KeepsTransitive(a: Db, b: Db, c: Db)
    requires Keeps(a, b) && Keeps(b, c)
    ensures Keeps(a, c)
  {
  }

  lemma PublishPairs(db: Db, key: string, hash: Digest, id: nat, entry: Entry)
    requires Paired(db) && key !in db.keys && id !in db.entries
    ensures var later := db.(keys := db.keys[key := Row(hash, Some(id))], entries := db.entries[id := entry]);
      Paired(later) && Keeps(db, later)
  {
    var later := db.(keys := db.keys[key := Row(hash, Some(id))], entries := db.entries[id := entry]);
    forall i | i in later.entries ensures exists k :: k in later.keys && later.keys[k].transaction == Some(i) {
      if i == id {
        assert later.keys[key].transaction == Some(i);
      } else {
        var k :| k in db.keys && db.keys[k].transaction == Some(i);
        assert later.keys[k] == db.keys[k];
      }
    }
  }

  /** COMMIT adds what the session holds, and only that. */
  lemma PublishedMeans(w: World, s: Sid)
    requires Valid(w) && s in w.sessions
    ensures var db := Published(w.db, w.sessions[s]);
      && Keeps(w.db, db) && Paired(db)
      && (forall u :: Taken(db, u) && !Taken(w.db, u) ==> Holds(w.sessions[s]) && u == Asked(w.sessions[s].request))
      && (forall id: nat :: id in db.entries && id !in w.db.entries ==> Made(w.sessions[s], id) && Holds(w.sessions[s]))
  {
    hide OneHolder, SnapshotsHeld, Honest, Paired, Keeps;
    var x := w.sessions[s];
    assert Truthful(w.db, x);
    KeepsItself(w.db);
    if x.phase.Settled? {
      assert Made(x, x.phase.id);
      PublishPairs(w.db, x.request.claim.key, x.request.claim.hash, x.phase.id, x.request.entry);
    } else if x.phase.Opening? {
      CodePairs(w.db, x.request.account.code);
    }
  }

  lemma KeepsItself(db: Db)
    ensures Keeps(db, db)
  {
  }

  lemma CodePairs(db: Db, code: string)
    requires Paired(db)
    ensures Paired(db.(codes := db.codes + {code})) && Keeps(db, db.(codes := db.codes + {code}))
  {
  }

  lemma TruthfulLater(db: Db, later: Db, x: Session)
    requires Truthful(db, x) && Keeps(db, later)
    requires Holds(x) ==> !Taken(later, Asked(x.request))
    ensures Truthful(later, x)
  {
  }

  lemma CommitPhase(w: World, s: Sid, acknowledged: bool)
    requires Valid(w) && Enabled(w, Commit(s, acknowledged))
    ensures Truthful(Do(w, Commit(s, acknowledged)).db, Do(w, Commit(s, acknowledged)).sessions[s])
  {
    hide OneHolder, IdsFresh, SnapshotsHeld, Paired;
    PublishedMeans(w, s);
    assert Truthful(w.db, w.sessions[s]);
  }

  lemma ReplayTrue(db: Db, x: Session)
    requires x.request.PostRequest? && x.request.claim.key in db.keys
    requires Paired(Seen(db, x)) && Keeps(Seen(db, x), db)
    ensures Truthful(db, x.(phase := ReadBackPhase(Seen(db, x), x.request.claim)))
  {
  }

  lemma ReadBackTrue(w: World, s: Sid)
    requires Valid(w) && Enabled(w, ReadBack(s))
    ensures Truthful(w.db, Do(w, ReadBack(s)).sessions[s])
  {
    hide OneHolder, IdsFresh, Paired, Keeps, Honest, ReadBackPhase;
    var x := w.sessions[s];
    assert Truthful(w.db, x);
    assert Keeps(x.snapshot, w.db) && Paired(x.snapshot);
    KeepsItself(w.db);
    if x.request.PostRequest? {
      ReplayTrue(w.db, x);
    } else {
      SilentPhase(w.db, x.(phase := Opening));
    }
  }

  lemma SilentPhase(db: Db, x: Session)
    requires Told(x) == NoAnswer || Told(x) == Refused
    ensures Truthful(db, x) <==> Placed(db, x)
  {
  }

  lemma ReadEntryTrue(w: World, s: Sid)
    requires Valid(w) && Enabled(w, ReadEntry(s))
    ensures Truthful(w.db, Do(w, ReadEntry(s)).sessions[s])
  {
    hide OneHolder, IdsFresh, Paired;
    assert Truthful(w.db, w.sessions[s]);
    assert Keeps(w.sessions[s].snapshot, w.db);
  }

  /** What the acting session's own phase comes to say is so. */
  lemma OwnPhase(w: World, a: Act)
    requires Valid(w) && Enabled(w, a)
    ensures Truthful(Do(w, a).db, Do(w, a).sessions[a.s])
  {
    hide OneHolder, IdsFresh, SnapshotsHeld, Paired, Honest, ReadBackPhase, Published;
    match a
    case Begin(_, _, _) => SilentPhase(w.db, Do(w, a).sessions[a.s]);
    case Commit(s, acknowledged) => CommitPhase(w, s, acknowledged);
    case ReadBack(s) => ReadBackTrue(w, s);
    case ReadEntry(s) => ReadEntryTrue(w, s);
    case _ =>
      assert Truthful(w.db, w.sessions[a.s]);
      SilentPhase(w.db, Do(w, a).sessions[a.s]);
  }

  lemma HolderKept(w: World, a: Act)
    requires Valid(w) && Enabled(w, a)
    ensures OneHolder(Do(w, a))
  {
    hide IdsFresh, SnapshotsHeld, Paired, Truthful;
    StepSpares(w, a);
    var after := Do(w, a);
    if Holds(after.sessions[a.s]) && a.Insert? {
      forall c | c in w.sessions && c != a.s && Holds(w.sessions[c])
        ensures Asked(w.sessions[c].request) != Asked(w.sessions[a.s].request)
      {
        assert !WaitsFor(w, a.s, c);
      }
    }
  }

  lemma MadeBy(w: World, a: Act, id: nat)
    requires Enabled(w, a) && Made(Do(w, a).sessions[a.s], id)
    ensures (a.s in w.sessions && Made(w.sessions[a.s], id) && Holds(w.sessions[a.s])) ||
      (a.Write? && a.taken && id == w.next)
  {
  }

  lemma IdsKept(w: World, a: Act)
    requires Valid(w) && Enabled(w, a)
    ensures IdsFresh(Do(w, a))
  {
    hide OneHolder, SnapshotsHeld, Paired, Truthful, Made, Keeps;
    StepSpares(w, a);
    if a.Commit? { PublishedMeans(w, a.s); }
    var after := Do(w, a);
    forall id: nat | Made(after.sessions[a.s], id)
      ensures (a.s in w.sessions && Made(w.sessions[a.s], id) && Holds(w.sessions[a.s])) ||
        (a.Write? && a.taken && id == w.next)
    {
      MadeBy(w, a, id);
    }
    forall id | id in after.db.entries ensures id < after.next {
      if id !in w.db.entries { assert Made(w.sessions[a.s], id); }
    }
    assert after.next >= w.next;
  }

  lemma SnapshotsKept(w: World, a: Act)
    requires Valid(w) && Enabled(w, a)
    ensures SnapshotsHeld(Do(w, a)) && Paired(Do(w, a).db) && Keeps(w.db, Do(w, a).db)
  {
    hide OneHolder, IdsFresh, Truthful, Paired, Keeps, Published;
    StepSpares(w, a);
    KeepsItself(w.db);
    if a.Commit? { PublishedMeans(w, a.s); }
    var after := Do(w, a);
    forall s | s in after.sessions
      ensures Keeps(after.sessions[s].snapshot, after.db) && Paired(after.sessions[s].snapshot)
    {
      if s in w.sessions { KeepsTransitive(w.sessions[s].snapshot, w.db, after.db); }
    }
  }

  lemma StepKeeps(w: World, a: Act)
    requires Valid(w) && Enabled(w, a)
    ensures Valid(Do(w, a)) && Keeps(w.db, Do(w, a).db)
  {
    hide Truthful, Paired, IdsFresh, SnapshotsHeld, Do, Keeps, Published;
    var after := Do(w, a);
    StepSpares(w, a);
    OwnPhase(w, a);
    HolderKept(w, a);
    IdsKept(w, a);
    SnapshotsKept(w, a);
    forall s | s in after.sessions && s != a.s ensures Truthful(after.db, after.sessions[s]) {
      OtherPhase(w, a, s);
    }
  }

  lemma OtherPhase(w: World, a: Act, s: Sid)
    requires Valid(w) && Enabled(w, a) && s in w.sessions && s != a.s
    ensures Truthful(Do(w, a).db, w.sessions[s])
  {
    hide Paired, IdsFresh, SnapshotsHeld;
    if a.Commit? {
      PublishedMeans(w, a.s);
      TruthfulLater(w.db, Do(w, a).db, w.sessions[s]);
    }
  }

  lemma {:induction false} RunIsValid(worlds: seq<World>, acts: seq<Act>, i: nat)
    requires Run(worlds, acts) && i <= |acts|
    ensures Valid(worlds[i])
  {
    if i == 0 {
    } else {
      RunIsValid(worlds, acts, i - 1);
      assert Follows(worlds[i - 1], acts[i - 1], worlds[i]);
      StepKeeps(worlds[i - 1], acts[i - 1]);
    }
  }
}
