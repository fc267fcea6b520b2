/** POST /v1/transactions by the names in its json: exactly which bodies are taken, and that
    the entry posted is what they say, member for member. */
module Bodies {
  import opened Text
  import Answers
  import Book
  import opened Decode
  import opened Faults
  import opened Endpoint
  import Fingerprint
  import Invariant
  import Paging
  import Paths
  import Server
  import Simple
  import Values

  type Members = map<string, Json>

  const ZERO_MOMENT := "0001-01-01T00:00:00Z"

  // ------------------------------------------------------------------ what is taken

  /** A literal that reads, or nothing, under a name. */
  predicate Reads(members: Members, name: string, read: string -> Option<string>) {
    name in members ==> members[name].Lit? && read(members[name].text).Some?
  }

  /** No fraction, no exponent, and within 64 bits. */
  predicate IsWhole(text: string) {
    text == "null"
    || (Paging.Atoi(text).Some? && -0x8000_0000_0000_0000 <= Paging.Atoi(text).value < 0x8000_0000_0000_0000)
  }

  predicate LegIsTaken(j: Json, text: string -> Option<string>) {
    && j.Obj?
    && (forall name | name in Got(j.members) :: name == "account" || name == "amount_minor")
    && Reads(Got(j.members), "account", text)
    && ("amount_minor" in Got(j.members) ==>
          Got(j.members)["amount_minor"].Lit? && IsWhole(Got(j.members)["amount_minor"].text))
  }

  /** The array under "postings", null and nothing being an empty one. */
  function Sides(members: Members): seq<Json> {
    if "postings" in members && members["postings"].Arr? then members["postings"].items else []
  }

  /** A body the endpoint decodes without a fault. */
  ghost predicate IsTakenBody(body: Json, reader: Reader) {
    && body.Obj?
    && var members := Got(body.members);
       && (forall name :: name in members ==> name in ["currency", "description", "postings", "occurred_at"])
       && Reads(members, "currency", reader.text) && Reads(members, "description", reader.text)
       && Reads(members, "occurred_at", reader.moment)
       && ("postings" in members ==> members["postings"].Arr? || members["postings"] == Lit("null"))
       && forall i :: 0 <= i < |Sides(members)| && i < 1000 ==> LegIsTaken(Sides(members)[i], reader.text)
  }

  lemma RequestNames(reader: Reader)
    ensures var t := TypeOf(reader);
      && t.Struct? && |t.fields| == 4 && (forall i :: 0 <= i < 4 ==> t.fields[i].exported)
      && Name(t.fields[0]) == "currency" && Name(t.fields[1]) == "description"
      && Name(t.fields[2]) == "postings" && Name(t.fields[3]) == "occurred_at"
  {
    hide Cut;
    Paths.CutIsWhole("currency");
    Paths.CutIsWhole("description");
    Paths.CutIsWhole("postings");
    Paths.CutIsWhole("occurred_at");
  }

  lemma LegNames(text: string -> Option<string>)
    ensures var t := Paths.PostingBody(text);
      && |t.fields| == 2 && t.fields[0].exported && t.fields[1].exported
      && Name(t.fields[0]) == "account" && Name(t.fields[1]) == "amount_minor"
      && NamesOf(t) == {"account", "amount_minor"}
  {
    hide Cut;
    Paths.CutIsWhole("account");
    Paths.CutIsWhole("amount_minor");
    var t := Paths.PostingBody(text);
    assert Taken(t.fields[0]) && Taken(t.fields[1]);
  }

  lemma WholeIsRead(text: string)
    ensures ReadWhole(text).Some? <==> IsWhole(text)
  {
  }

  lemma LegConforms(j: Json, text: string -> Option<string>, leaf: string)
    ensures Conforms(j, Paths.PostingBody(text), leaf) <==> LegIsTaken(j, text)
  {
    hide Cut, Got, LeafName, NamesOf, ReadWhole, IsWhole;
    LegNames(text);
    var t := Paths.PostingBody(text);
    if j.Obj? {
      var got := Got(j.members);
      if "amount_minor" in got && got["amount_minor"].Lit? { WholeIsRead(got["amount_minor"].text); }
      assert FieldsConform(j, t) <==>
        (IsField(t.fields[0], "account", got) ==> Fits(got["account"], t.fields[0].of)) &&
        (IsField(t.fields[1], "amount_minor", got) ==> Fits(got["amount_minor"], t.fields[1].of));
    }
  }

  /** As many of the legs as are read. */
  lemma LegsConform(j: Json, text: string -> Option<string>)
    ensures Conforms(j, Slice(Paths.PostingBody(text)), "postings") <==>
      (j.Arr? || j == NULL) && forall i :: 0 <= i < |Items(j)| && i < 1000 ==> LegIsTaken(Items(j)[i], text)
  {
    hide Paths.PostingBody, LegIsTaken, LabelOf;
    var t := Slice(Paths.PostingBody(text));
    forall i | 0 <= i < |Items(j)|
      ensures Conforms(Items(j)[i], t.elem, LabelOf("postings", i)) <==> LegIsTaken(Items(j)[i], text)
    {
      LegConforms(Items(j)[i], text, LabelOf("postings", i));
    }
  }

  /** The decoder finds no fault in exactly these bodies. */
  lemma TakenExactly(body: Json, reader: Reader)
    ensures Found(body, TypeOf(reader), "") == [] <==> IsTakenBody(body, reader)
  {
    hide Found, Got, NamesOf, Paths.TransactionRequest, LegIsTaken, Conforms, FieldsConform, Reads, LeafName;
    var t := TypeOf(reader);
    NoFaultsMeansConforms(body, t, "");
    RequestNames(reader);
    Paths.TransactionNamesAreDistinct(reader.text, reader.moment);
    StructConforms(body, t);
    if body.Obj? {
      var got := Got(body.members);
      if "postings" in got {
        PostingsAre(reader);
        LegsConform(got["postings"], reader.text);
        assert got["postings"].Arr? || got["postings"] == NULL ==> Sides(got) == Items(got["postings"]);
      }
      FieldsOf(body, reader);
    }
  }

  lemma StructConforms(j: Json, t: Type)
    requires t.Struct?
    ensures Conforms(j, t, "") <==> j.Obj? && FieldsConform(j, t) && Got(j.members).Keys <= NamesOf(t)
  {
    hide Got, NamesOf, FieldsConform;
  }

  lemma PostingsAre(reader: Reader)
    ensures TypeOf(reader).Struct? && |TypeOf(reader).fields| == 4
    ensures TypeOf(reader).fields[2].of == Slice(Paths.PostingBody(reader.text))
    ensures LeafName("postings") == "postings"
  {
  }

  lemma FieldsOf(body: Json, reader: Reader)
    requires body.Obj?
    ensures var t, got := TypeOf(reader), Got(body.members);
      FieldsConform(body, t) <==>
        && Reads(got, "currency", reader.text) && Reads(got, "description", reader.text)
        && Reads(got, "occurred_at", reader.moment)
        && ("postings" in got ==> Conforms(got["postings"], t.fields[2].of, LeafName("postings")))
  {
    hide Got, NamesOf, Paths.PostingBody, Cut, LeafName;
    RequestNames(reader);
    var t, got := TypeOf(reader), Got(body.members);
    assert IsField(t.fields[0], "currency", got) <==> "currency" in got;
    assert IsField(t.fields[1], "description", got) <==> "description" in got;
    assert IsField(t.fields[2], "postings", got) <==> "postings" in got;
    assert IsField(t.fields[3], "occurred_at", got) <==> "occurred_at" in got;
  }

  // ------------------------------------------------------------------ what is posted

  /** The text sent under a name, as its reader gives it, or what stands for none. */
  predicate IsText(s: string, members: Members, name: string, read: string -> Option<string>, none: string) {
    if name in members then members[name].Lit? && read(members[name].text) == Some(s) else s == none
  }

  /** The number sent under "amount_minor", null and nothing being zero. */
  predicate IsAmount(amount: Book.Amount, members: Members) {
    if "amount_minor" !in members || members["amount_minor"] == Lit("null") then amount == 0
    else members["amount_minor"].Lit? && Paging.Atoi(members["amount_minor"].text) == Some(amount as int)
  }

  predicate IsLeg(leg: Simple.Leg, j: Json, text: string -> Option<string>) {
    j.Obj? && IsText(leg.account, Got(j.members), "account", text, "") && IsAmount(leg.amount, Got(j.members))
  }

  /** What is read of one element: a leg that says what was sent, or past the bound a blank. */
  ghost predicate IsSide(leg: Simple.Leg, got: Members, i: nat, reader: Reader) {
    i < |Sides(got)| &&
    if i < 1000 then IsLeg(leg, Sides(got)[i], reader.text) else leg == Simple.Leg("", 0)
  }

  /** The entry says what the body says, under the same names. */
  ghost predicate IsEntry(e: Simple.Entry, body: Json, reader: Reader) {
    && body.Obj?
    && var members := Got(body.members);
       && IsText(e.currency, members, "currency", reader.text, "")
       && IsText(e.description, members, "description", reader.text, "")
       && |e.legs| == |Sides(members)|
       && (forall i: nat :: i < |e.legs| ==> IsSide(e.legs[i], members, i, reader))
       && exists moment ::
            IsText(moment, members, "occurred_at", reader.moment, ZERO_MOMENT) && e.occurredAt == reader.instant(moment)
  }

  lemma TextRead(f: Field, got: Members)
    requires f.of.Leaf? && Taken(f) && Reads(got, Name(f), f.of.read)
    ensures ReadField(f, got).AtomOf? && IsText(ReadField(f, got).atom, got, Name(f), f.of.read, f.of.zero)
  {
    hide Name, LeafName;
  }

  lemma LegRead(j: Json, text: string -> Option<string>, leaf: string)
    requires LegIsTaken(j, text)
    ensures IsLeg(LegIn(Read(j, Paths.PostingBody(text), leaf)), j, text)
  {
    hide Got, Cut, AmountIn, ReadWhole, IsWhole, Paging.Atoi, LeafName;
    LegNames(text);
    var t, got := Paths.PostingBody(text), Got(j.members);
    Values.ReadInside(j, t, leaf);
    TextRead(t.fields[0], got);
    if "amount_minor" in got { WholeIsRead(got["amount_minor"].text); }
    TextRead(t.fields[1], got);
    AmountRead(got, ReadField(t.fields[1], got).atom);
  }

  lemma ZeroText()
    ensures Decimal(0) == "0" && AmountIn("0") == 0
  {
    DecimalReadsBack(0);
    assert Paging.Itoa(0) == "0";
  }

  lemma AmountRead(got: Members, atom: string)
    requires "amount_minor" in got ==> got["amount_minor"].Lit? && IsWhole(got["amount_minor"].text)
    requires IsText(atom, got, "amount_minor", ReadWhole, "0")
    ensures IsAmount(AmountIn(atom), got)
  {
    hide Paging.Atoi;
    ZeroText();
    if "amount_minor" in got { AmountIsSent(got["amount_minor"].text); }
  }

  lemma SidesRead(j: Json, reader: Reader, i: nat)
    requires (j.Arr? || j == NULL) && i < |Items(j)| && (i < 1000 ==> LegIsTaken(Items(j)[i], reader.text))
    ensures var items := ItemsIn(Read(j, Slice(Paths.PostingBody(reader.text)), "postings"));
      |items| == |Items(j)| &&
        if i < 1000 then IsLeg(LegIn(items[i]), Items(j)[i], reader.text) else LegIn(items[i]) == Simple.Leg("", 0)
  {
    hide LegIsTaken, Paths.PostingBody, LegIn, IsLeg, LabelOf, Read;
    var t := Slice(Paths.PostingBody(reader.text));
    Values.ReadInside(j, t, "postings");
    if i < 1000 {
      LegRead(Items(j)[i], reader.text, LabelOf("postings", i));
    } else {
      BlankLeg(reader.text);
    }
  }

  lemma LegsRead(got: Members, reader: Reader)
    requires "postings" in got ==> got["postings"].Arr? || got["postings"] == NULL
    requires forall i :: 0 <= i < |Sides(got)| && i < 1000 ==> LegIsTaken(Sides(got)[i], reader.text)
    ensures TypeOf(reader).Struct? && |TypeOf(reader).fields| == 4
    ensures var items := ItemsIn(ReadField(TypeOf(reader).fields[2], got));
      |items| == |Sides(got)| && forall i: nat :: i < |items| ==> IsSide(LegIn(items[i]), got, i, reader)
  {
    hide LegIsTaken, Paths.TransactionRequest, LegIn, IsLeg, Read, LeafName, Cut;
    RequestNames(reader);
    PostingsAre(reader);
    var f, t := TypeOf(reader).fields[2], Slice(Paths.PostingBody(reader.text));
    if "postings" in got {
      var j := got["postings"];
      assert Sides(got) == Items(j);
      var items := ItemsIn(Read(j, t, "postings"));
      Values.ReadInside(j, t, "postings");
      forall i: nat | i < |items| ensures IsSide(LegIn(items[i]), got, i, reader) { SidesRead(j, reader, i); }
    } else {
      assert ReadField(f, got) == Unset;
    }
  }

  lemma BlankLeg(text: string -> Option<string>)
    ensures LegIn(Zero(Paths.PostingBody(text))) == Simple.Leg("", 0)
  {
    ZeroText();
  }

  /** The entry a body posts, where it is taken, is what the body says. */
  lemma PostedIsSent(body: Json, reader: Reader)
    requires IsTakenBody(body, reader)
    ensures IsEntry(Posted(body, reader), body, reader)
  {
    hide Got, Cut, LegIsTaken, Paths.PostingBody, LegIn, ReadField, IsText, IsLeg, LeafName;
    RequestNames(reader);
    var t, got := TypeOf(reader), Got(body.members);
    Values.ReadInside(body, t, "");
    TextRead(t.fields[0], got);
    TextRead(t.fields[1], got);
    LegsRead(got, reader);
    TextRead(t.fields[3], got);
  }

  /** One element past the bound and the body is refused, with the number it sent; and at the
      bound or under it every element is read. */
  lemma TooManyAreCounted(b: Simple.Ledger, key: string, body: Json, reader: Reader, now: int, fate: Server.Fate)
    requires IsTakenBody(body, reader) && key != ""
    ensures var n := |Sides(Got(body.members))|;
      Server.ServedPost(b, Endpoint.Sent(key, body, reader, now, fate)).1.TooManyPostings? <==> n > 1000
    ensures var n := |Sides(Got(body.members))|;
      n > 1000 ==> Server.ServedPost(b, Endpoint.Sent(key, body, reader, now, fate)) == (b, Server.TooManyPostings(n))
  {
    hide Posted, Claimed, Got, Simple.Once;
    PostedIsSent(body, reader);
  }

  /** From the json to the answer: a body that is taken is answered as an entry that says,
      under the same names, what it says. */
  lemma BodyIsAnswered(b: Simple.Ledger, key: string, body: Json, reader: Reader, now: int, fate: Server.Fate)
    requires IsTakenBody(body, reader) && Book.AtRest(b.tables) && Invariant.Drawable(b.tables, b.supply)
    ensures var q := Endpoint.Sent(key, body, reader, now, fate);
      q.key == Claimed(key, body, reader).key == key && IsEntry(q.entry, body, reader) &&
        Answers.AnswersPost(b.tables, b.supply.transaction, q, Server.ServedPost(b, q).1)
  {
    hide Posted, Decode.Read, Fingerprint.Canonical, IsEntry, IsTakenBody, Answers.AnswersPost, Server.ServedPost,
         Book.AtRest, Invariant.Drawable;
    PostedIsSent(body, reader);
    Answers.PostIsAnswered(b, Endpoint.Sent(key, body, reader, now, fate));
  }
}
