/** POST /v1/transactions from the body on: what is decoded, the claim it carries, the entry
    it posts, and what a body sent again is answered with. */
module Endpoint {
  import opened Text
  import Book
  import Decode
  import Engine
  import Fingerprint
  import P = Protocol
  import AtMostOnce
  import Paging
  import Paths
  import Invariant
  import Reads
  import Reordered
  import opened Server
  import Simple

  type Json = Decode.Json
  type Value = Decode.Value

  // ------------------------------------------------------------------ from a body

  /** The readers of a request's texts, its moments, and the digest of what it decodes to. */
  datatype Reader = Reader(
    text: string -> Option<string>,
    moment: string -> Option<string>,
    instant: string -> Option<int>,
    digest: string -> Book.Digest)

  function TypeOf(reader: Reader): Decode.Type { Paths.TransactionRequest(reader.text, reader.moment) }

  function AtomIn(v: Value): string { if v.AtomOf? then v.atom else "" }

  function FieldIn(v: Value, i: nat): Value { if v.Fields? && i < |v.fields| then v.fields[i] else Decode.Unset }

  function ItemsIn(v: Value): seq<Value> { if v.Elements? then v.items else [] }

  function AmountIn(atom: string): Book.Amount {
    match Paging.Atoi(atom)
    case Some(n) => if -0x8000_0000_0000_0000 <= n < 0x8000_0000_0000_0000 then n as Book.Amount else 0
    case None => 0
  }

  function LegIn(v: Value): Simple.Leg { Simple.Leg(AtomIn(FieldIn(v, 0)), AmountIn(AtomIn(FieldIn(v, 1)))) }

  /** The entry a decoded request posts, leg for leg; a zero moment is left for the ledger. */
  function EntryOf(v: Value, instant: string -> Option<int>): Simple.Entry {
    var postings := ItemsIn(FieldIn(v, 2));
    Simple.Entry(AtomIn(FieldIn(v, 0)), AtomIn(FieldIn(v, 1)),
      seq(|postings|, i requires 0 <= i < |postings| => LegIn(postings[i])),
                 instant(AtomIn(FieldIn(v, 3))))
  }

  /** A decoded amount posts the number that was sent. */
  lemma AmountIsSent(text: string)
    ensures var read := Decode.ReadWhole(text);
      read.Some? && text != "null" ==> Paging.Atoi(text) == Some(AmountIn(read.value) as int)
  {
    var read := Decode.ReadWhole(text);
    if read.Some? && text != "null" { DecimalReadsBack(Paging.Atoi(text).value); }
  }

  lemma DecimalReadsBack(n: int)
    ensures Paging.Atoi(Decode.Decimal(n)) == Some(n)
  {
    hide Paging.Digits, Paging.Itoa;
    if n < 0 {
      assert Decode.Decimal(n)[1..] == Paging.Itoa(-n);
      Paging.DigitsOfItoa(-n);
    } else {
      Paging.AtoiOfItoa(n);
    }
  }

  ghost function Claimed(key: string, body: Json, reader: Reader): Simple.Claim {
    Fingerprint.TransactionWritesNumbers(reader.text, reader.moment);
    Fingerprint.ClaimOf(key, body, TypeOf(reader), reader.digest)
  }

  function Posted(body: Json, reader: Reader): Simple.Entry {
    EntryOf(Decode.Read(body, TypeOf(reader), ""), reader.instant)
  }

  /** A body sent under a key. */
  ghost function Sent(key: string, body: Json, reader: Reader, now: int, fate: Fate): PostRequest {
    PostRequest(key, Claimed(key, body, reader).hash, Posted(body, reader), now, fate)
  }

  // ------------------------------------------------------------------ a body sent again

  /** One fingerprint and one entry, whatever the order of an object's members. */
  lemma ReorderedIsOneRequest(a: Json, b: Json, key: string, reader: Reader)
    requires Reordered.Same(a, b)
    ensures Claimed(key, a, reader) == Claimed(key, b, reader) && Posted(a, reader) == Posted(b, reader)
  {
    hide EntryOf, Decode.Read, Decode.Found, Reordered.Same, Paths.TransactionRequest;
    Fingerprint.TransactionWritesNumbers(reader.text, reader.moment);
    Fingerprint.ReorderedIsOneClaim(a, b, TypeOf(reader), key, reader.digest);
    Reordered.SameDecodes(a, b, TypeOf(reader), "");
  }

  /** A committed request sent again with its members in any order is answered with the first
      result, as a replay and not as a conflict, and writes nothing. */
  lemma ReorderedIsReplayed(ledgers: seq<Simple.Ledger>, qs: seq<Request>, rs: seq<Answer>, i: nat, j: nat,
                            a: Json, b: Json, key: string, reader: Reader)
    requires Server.Run(ledgers, qs, rs) && i < j < |qs| && qs[i].Posts? && qs[j].Posts? && Reordered.Same(a, b)
    requires qs[i].post == Sent(key, a, reader, qs[i].post.now, qs[i].post.fate)
    requires qs[j].post == Sent(key, b, reader, qs[j].post.now, Acknowledged)
    requires IsCommitted(qs[i].post, rs[i])
    ensures rs[j].Created? && rs[j].replayed && ledgers[j + 1] == ledgers[j]
    ensures rs[i].Created? ==> rs[j] == Created(rs[i].body, true)
  {
    hide Server.Run, Posted, Claimed, Reordered.Same, Written;
    ReorderedIsOneRequest(a, b, key, reader);
    CommittedIsShort(ledgers, qs, rs, i);
    RetryIsAnswered(ledgers, qs, rs, i, j);
  }

  lemma CommittedIsShort(ledgers: seq<Simple.Ledger>, qs: seq<Request>, rs: seq<Answer>, i: nat)
    requires Server.Run(ledgers, qs, rs) && i < |qs| && qs[i].Posts? && IsCommitted(qs[i].post, rs[i])
    ensures |qs[i].post.entry.legs| <= MAX_POSTINGS && |rs| == |qs| && |ledgers| == |qs| + 1
  {
    hide Simple.Once, Reads.EntryHeld, Book.AtRest, Invariant.Drawable;
    assert Server.Follows(ledgers, i, qs[i], rs[i]);
  }

  /** And one that decodes otherwise, under the same key, is refused as a conflict. */
  lemma OtherIsRefused(ledgers: seq<Simple.Ledger>, qs: seq<Request>, rs: seq<Answer>, i: nat, j: nat,
                       a: Json, b: Json, key: string, reader: Reader)
    requires Server.Run(ledgers, qs, rs) && i < j < |qs| && qs[i].Posts? && qs[j].Posts?
    requires qs[i].post == Sent(key, a, reader, qs[i].post.now, qs[i].post.fate)
    requires qs[j].post == Sent(key, b, reader, qs[j].post.now, qs[j].post.fate)
    requires rs[i].Created? && |qs[j].post.entry.legs| <= MAX_POSTINGS
    requires Engine.KeyCheck(key, qs[j].post.hash).None?
    requires Decode.Read(a, TypeOf(reader), "") != Decode.Read(b, TypeOf(reader), "")
    requires Apart(a, b, reader)
    ensures rs[j] == Answer.Refused(Simple.KeyReused)
  {
    hide Server.Run, Posted, Decode.Read, Fingerprint.Canonical;
    Fingerprint.TransactionWritesNumbers(reader.text, reader.moment);
    Fingerprint.ClaimsTellRequests(a, b, TypeOf(reader), key, reader.digest);
    OneBodyPerKey(ledgers, qs, rs, i, j);
  }

  /** The two requests are no collision of the digest. */
  ghost predicate Apart(a: Json, b: Json, reader: Reader) {
    Fingerprint.TransactionWritesNumbers(reader.text, reader.moment);
    Fingerprint.NoCollision(reader.digest, Fingerprint.Canonical(a, TypeOf(reader)),
      Fingerprint.Canonical(b, TypeOf(reader)))
  }

  // ------------------------------------------------------- what the sessions take of it

  /** Every post of a world was decoded from a body. */
  ghost predicate Decoded(w: P.World, bodies: map<P.Sid, Json>, reader: Reader) {
    forall s :: s in w.sessions && w.sessions[s].request.PostRequest? ==>
      s in bodies && FromBody(w.sessions[s].request, bodies[s], reader)
  }

  ghost predicate FromBody(r: P.Request, body: Json, reader: Reader) {
    r.PostRequest? && r.claim == Claimed(r.claim.key, body, reader) && r.entry == Posted(body, reader)
  }

  /** Then one fingerprint is one entry, which is what AtMostOnce takes of the sessions. */
  lemma DecodedIsFingerprinted(w: P.World, bodies: map<P.Sid, Json>, reader: Reader)
    requires Decoded(w, bodies, reader)
    requires forall s, c :: s in bodies && c in bodies ==> Apart(bodies[s], bodies[c], reader)
    ensures AtMostOnce.Fingerprinted(w)
  {
    hide Posted, Apart, Claimed;
    forall s, c | s in w.sessions && c in w.sessions
      && w.sessions[s].request.PostRequest? && w.sessions[c].request.PostRequest?
      && w.sessions[s].request.claim.hash == w.sessions[c].request.claim.hash
      ensures w.sessions[s].request.entry == w.sessions[c].request.entry
    {
      assert FromBody(w.sessions[s].request, bodies[s], reader) && FromBody(w.sessions[c].request, bodies[c], reader);
      OneHashOneEntry(w.sessions[s].request.claim.key, w.sessions[c].request.claim.key, bodies[s], bodies[c], reader);
    }
  }

  lemma OneHashOneEntry(key: string, other: string, a: Json, b: Json, reader: Reader)
    requires Apart(a, b, reader) && Claimed(key, a, reader).hash == Claimed(other, b, reader).hash
    ensures Posted(a, reader) == Posted(b, reader)
  {
    hide EntryOf, Decode.Read, Fingerprint.Canonical;
    Fingerprint.TransactionWritesNumbers(reader.text, reader.moment);
    Fingerprint.ClaimsTellRequests(a, b, TypeOf(reader), key, reader.digest);
  }

  /** So in any run of interleaved sessions every 201, replayed or not, carries the entry
      decoded from its own request's body. */
  lemma AnswerIsTheBodys(worlds: seq<P.World>, acts: seq<P.Act>, i: nat, s: P.Sid, answer: P.Answer,
                         bodies: map<P.Sid, Json>, reader: Reader)
    requires P.Run(worlds, acts) && i <= |acts| && AtMostOnce.Answered(worlds[i], s, answer) && AtMostOnce.Is201(answer)
    requires Decoded(worlds[i], bodies, reader)
    requires forall c, d :: c in bodies && d in bodies ==> Apart(bodies[c], bodies[d], reader)
    ensures s in bodies && answer.entry == Posted(bodies[s], reader)
  {
    hide Posted, Apart, AtMostOnce.Fingerprinted;
    DecodedIsFingerprinted(worlds[i], bodies, reader);
    AtMostOnce.AnswerIsTheRequests(worlds, acts, i, s, answer);
    assert FromBody(worlds[i].sessions[s].request, bodies[s], reader);
  }
}
