/** The body decoder: a reader directed by the request's own type, which collects every
    fault a body has rather than its first. */
module Decode {
  import opened Text
  import Paging

  // ------------------------------------------------------------------ json, types

  /** A json value. A literal (a string in its quotes, a number, true, false, null) is its
      own text, and an object's members are in the order they were sent. */
  datatype Json = Lit(text: string) | Arr(items: seq<Json>) | Obj(members: seq<Member>)

  datatype Member = Member(name: string, value: Json)

  type Atom = string

  /** How a leaf is written: a moment as its text, a whole number as its digits. */
  datatype Writing = Quoted | Bare

  /** What a value is read into. A leaf reads a literal itself. */
  datatype Type =
    | Leaf(writing: Writing, zero: Atom, read: string -> Option<Atom>)
    | Slice(elem: Type)
    | Struct(fields: seq<Field>)

  datatype Field = Field(tag: string, exported: bool, of: Type)

  datatype Value = AtomOf(atom: Atom) | Unset | Elements(items: seq<Value>) | Fields(fields: seq<Value>)

  /** The text of a whole number, as it is written back. */
  function Decimal(n: int): string { if n < 0 then "-" + Paging.Itoa(-n) else Paging.Itoa(n) }

  /** A json literal read into an int64: no fraction, no exponent, and within its width. */
  function ReadWhole(text: string): Option<Atom> {
    if text == "null" then Some(Decimal(0))
    else
      match Paging.Atoi(text)
      case None => None
      case Some(n) => if -0x8000_0000_0000_0000 <= n < 0x8000_0000_0000_0000 then Some(Decimal(n)) else None
  }

  /** strings.Cut at the first comma. */
  function Cut(tag: string): string {
    if tag == "" || tag[0] == ',' then "" else [tag[0]] + Cut(tag[1..])
  }

  function Name(f: Field): string { Cut(f.tag) }

  predicate Taken(f: Field) { f.exported && Name(f) != "" && Name(f) != "-" }

  /** The names one object takes. */
  function NamesOf(t: Type): set<string>
    requires t.Struct?
  {
    set i | 0 <= i < |t.fields| && Taken(t.fields[i]) :: Name(t.fields[i])
  }

  /** json.Unmarshal into a map: of two members with one name, the last. */
  function Got(members: seq<Member>): map<string, Json> {
    if members == [] then map[]
    else Got(members[..|members| - 1])[members[|members| - 1].name := members[|members| - 1].value]
  }

  /** The i-th member is the last of its name. */
  ghost predicate LastNamed(members: seq<Member>, name: string, i: nat) {
    i < |members| && members[i].name == name && forall k :: i < k < |members| ==> members[k].name != name
  }

  lemma {:induction false} GotIsTheLast(members: seq<Member>, name: string, value: Json)
    ensures name in Got(members) && Got(members)[name] == value <==>
      exists i: nat :: LastNamed(members, name, i) && members[i].value == value
  {
    if members == [] {
    } else {
      var n := |members| - 1;
      var front := members[..n];
      GotIsTheLast(front, name, value);
      if members[n].name == name {
        assert LastNamed(members, name, n);
      } else {
        forall i: nat ensures LastNamed(members, name, i) <==> LastNamed(front, name, i) {}
      }
    }
  }

  /** A tag is a name and, behind a comma, what the encoder is told of it. */
  predicate TagNames(tag: string, name: string) {
    ',' !in name && name <= tag && (|tag| > |name| ==> tag[|name|] == ',')
  }

  lemma {:induction false} CutIsTheName(tag: string, name: string)
    ensures Cut(tag) == name <==> TagNames(tag, name)
  {
    if tag == "" || tag[0] == ',' {
    } else if name == "" {
    } else {
      CutIsTheName(tag[1..], name[1..]);
      assert name == [name[0]] + name[1..];
      if name[0] == tag[0] && TagNames(tag[1..], name[1..]) { assert tag == [tag[0]] + tag[1..]; }
      if TagNames(tag, name) { assert name[1..] <= tag[1..]; }
    }
  }

  /** The i-th field is exported and tagged with a name of its own. */
  ghost predicate IsTagged(t: Type, i: nat, name: string)
    requires t.Struct?
  {
    i < |t.fields| && t.fields[i].exported && TagNames(t.fields[i].tag, name)
  }

  /** An object takes exactly the names its exported fields are tagged with. */
  lemma TakesItsTags(t: Type, name: string)
    requires t.Struct?
    ensures name in NamesOf(t) <==> name != "" && name != "-" && exists i: nat :: IsTagged(t, i, name)
  {
    hide Cut;
    forall i | 0 <= i < |t.fields| ensures Name(t.fields[i]) == name <==> TagNames(t.fields[i].tag, name) {
      CutIsTheName(t.fields[i].tag, name);
    }
    if name in NamesOf(t) {
      var i :| 0 <= i < |t.fields| && Taken(t.fields[i]) && Name(t.fields[i]) == name;
      assert IsTagged(t, i, name);
    }
    if name != "" && name != "-" && exists i: nat :: IsTagged(t, i, name) {
      var i: nat :| IsTagged(t, i, name);
      assert Taken(t.fields[i]);
    }
  }

  function Zero(t: Type): Value {
    match t
    case Leaf(_, zero, _) => AtomOf(zero)
    case Slice(_) => Unset
    case Struct(fields) => Fields(seq(|fields|, i requires 0 <= i < |fields| => Zero(fields[i].of)))
  }

  // ------------------------------------------------------------------------ paths

  function Under(path: string, name: string): string { if path == "" then name else path + "." + name }

  function Element(path: string, i: nat): string { path + "[" + Paging.Itoa(i) + "]" }

  /** The last name in a path. */
  function LeafName(path: string): string { if '.' !in path then path else LeafName(path[1..]) }

  const COUNTED: map<string, nat> := map["postings" := 1000]

  /** How many elements of an array under this name are read. */
  function Limit(leaf: string, n: nat): (most: nat)
    ensures most <= n
  {
    if leaf in COUNTED && n > COUNTED[leaf] then COUNTED[leaf] else n
  }

  datatype Step = Index(i: nat) | In(field: nat, name: string) | Extra(name: string)

  function Extend(path: string, step: Step): string {
    match step
    case Index(i) => Element(path, i)
    case In(_, name) => Under(path, name)
    case Extra(name) => Under(path, name)
  }

  function Render(path: string, steps: seq<Step>): string
    decreases |steps|
  {
    if steps == [] then path else Render(Extend(path, steps[0]), steps[1..])
  }

  // ------------------------------------------------------- what is wrong with a body

  datatype What = Unreadable(sent: string) | Undefined(valid: seq<string>)

  /** One fault: where in the body, as steps from its root, and what. */
  datatype Site = Site(steps: seq<Step>, what: What)

  /** The same as a refusal carries it. */
  datatype Fault = Fault(parameter: string, what: What)

  /** The json a refused field held: a literal itself, a composite by its word. */
  function Sent(j: Json): string {
    match j
    case Lit(text) => text
    case Arr(_) => "array"
    case Obj(_) => "object"
  }

  const NULL := Lit("null")

  predicate Fits(j: Json, t: Type) {
    match t
    case Leaf(_, _, read) => j.Lit? && read(j.text).Some?
    case Slice(_) => j.Arr? || j == NULL
    case Struct(_) => j.Obj?
  }

  function Items(j: Json): seq<Json> { if j.Arr? then j.items else [] }

  function Below(step: Step, sites: seq<Site>): (r: seq<Site>)
    ensures |r| == |sites|
    ensures forall i :: 0 <= i < |r| ==> r[i] == Site([step] + sites[i].steps, sites[i].what)
  {
    seq(|sites|, i requires 0 <= i < |sites| => Site([step] + sites[i].steps, sites[i].what))
  }

  function LabelOf(leaf: string, i: nat): string { leaf + "[" + Paging.Itoa(i) + "]" }

  /** Every fault in `j` read as a `t`: an array's in element order, an object's in the
      order its type declares the fields, then the names it does not take, in name order. */
  function Found(j: Json, t: Type, leaf: string): seq<Site>
    decreases t, 2, 0
  {
    if !Fits(j, t) then [Site([], Unreadable(Sent(j)))]
    else
      match t
      case Leaf(_, _, _) => []
      case Slice(_) => FoundItems(t, Items(j), leaf, Limit(leaf, |Items(j)|))
      case Struct(fields) =>
        var got := Got(j.members);
        FoundFields(t, got, |fields|) + FoundExtras(t, Sorted(got.Keys))
  }

  /** The first `n` elements. */
  function FoundItems(t: Type, items: seq<Json>, leaf: string, n: nat): seq<Site>
    requires t.Slice? && n <= |items|
    decreases t, 1, n
  {
    if n == 0 then []
    else FoundItems(t, items, leaf, n - 1) + Below(Index(n - 1), Found(items[n - 1], t.elem, LabelOf(leaf, n - 1)))
  }

  /** The first `n` fields. */
  function FoundFields(t: Type, got: map<string, Json>, n: nat): seq<Site>
    requires t.Struct? && n <= |t.fields|
    decreases t, 1, n
  {
    if n == 0 then []
    else
      var f := t.fields[n - 1];
      FoundFields(t, got, n - 1) +
      if Taken(f) && Name(f) in got then Below(In(n - 1, Name(f)), Found(got[Name(f)], f.of, LeafName(Name(f)))) else []
  }

  function FoundExtras(t: Type, names: seq<string>): seq<Site>
    requires t.Struct?
    decreases t, 0, |names|
  {
    if names == [] then []
    else
      var last := names[|names| - 1];
      FoundExtras(t, names[..|names| - 1]) +
      if last !in NamesOf(t) then [Site([Extra(last)], Undefined(Sorted(NamesOf(t))))] else []
  }

  /** What is read, fault or no fault: what cannot be read, is not sent, or lies past the
      bound is left as it was, and an array is as long as it was sent. */
  function Read(j: Json, t: Type, leaf: string): Value
    decreases t
  {
    if !Fits(j, t) then Zero(t)
    else
      match t
      case Leaf(_, _, read) => AtomOf(read(j.text).value)
      case Slice(elem) =>
        var items := Items(j);
        Elements(seq(|items|, i requires 0 <= i < |items| =>
          if i < Limit(leaf, |items|) then Read(items[i], elem, LabelOf(leaf, i)) else Zero(elem)))
      case Struct(fields) =>
        var got := Got(j.members);
        Fields(seq(|fields|, i requires 0 <= i < |fields| =>
          if Taken(fields[i]) && Name(fields[i]) in got
          then Read(got[Name(fields[i])], fields[i].of, LeafName(Name(fields[i])))
          else Zero(fields[i].of)))
  }

  function Rendered(path: string, sites: seq<Site>): (r: seq<Fault>)
    ensures |r| == |sites|
    ensures forall i :: 0 <= i < |r| ==> r[i] == Fault(Render(path, sites[i].steps), sites[i].what)
  {
    seq(|sites|, i requires 0 <= i < |sites| => Fault(Render(path, sites[i].steps), sites[i].what))
  }

  // ------------------------------------------------------------------ the decoder

  lemma RenderedBelow(path: string, sites: seq<Site>, step: Step, more: seq<Site>)
    ensures Rendered(path, sites + Below(step, more)) == Rendered(path, sites) + Rendered(Extend(path, step), more)
  {
  }

  lemma {:induction false} LeafUnder(path: string, name: string)
    ensures LeafName(Under(path, name)) == LeafName(name)
  {
    if path == "" {
    } else {
      LeafPast(path, name);
    }
  }

  lemma {:induction false} LeafPast(path: string, name: string)
    ensures LeafName(path + "." + name) == LeafName(name)
  {
    var all := path + "." + name;
    assert all[|path|] == '.';
    if path == "" {
      assert all[1..] == name;
    } else {
      assert all[1..] == path[1..] + "." + name;
      LeafPast(path[1..], name);
    }
  }

  lemma {:induction false} DigitsHaveNoDot(n: nat)
    ensures '.' !in Paging.Itoa(n)
  {
    if n < 10 {
    } else {
      DigitsHaveNoDot(n / 10);
    }
  }

  lemma LeafElement(path: string, i: nat)
    ensures LeafName(Element(path, i)) == LabelOf(LeafName(path), i)
  {
    DigitsHaveNoDot(i);
    LeafEnds(path, "[" + Paging.Itoa(i) + "]");
    assert Element(path, i) == path + ("[" + Paging.Itoa(i) + "]");
    assert LabelOf(LeafName(path), i) == LeafName(path) + ("[" + Paging.Itoa(i) + "]");
  }

  lemma {:induction false} LeafEnds(path: string, end: string)
    requires '.' !in end
    ensures LeafName(path + end) == LeafName(path) + end
  {
    if '.' !in path {
    } else {
      assert '.' in path + end;
      assert (path + end)[1..] == path[1..] + end;
      LeafEnds(path[1..], end);
    }
  }

  method ReadValue(raw: Json, t: Type, path: string) returns (v: Value, bad: seq<Fault>)
    ensures v == Read(raw, t, LeafName(path))
    ensures bad == Rendered(path, Found(raw, t, LeafName(path)))
    decreases t, 1
  {
    match t
    case Struct(_) => v, bad := ReadObject(raw, t, path);
    case Slice(_) => v, bad := ReadArray(raw, t, path);
    case Leaf(_, _, _) => v, bad := ReadLeaf(raw, t, path);
  }

  method ReadLeaf(raw: Json, t: Type, path: string) returns (v: Value, bad: seq<Fault>)
    requires t.Leaf?
    ensures v == Read(raw, t, LeafName(path))
    ensures bad == Rendered(path, Found(raw, t, LeafName(path)))
  {
    if raw.Lit? && t.read(raw.text).Some? {
      return AtomOf(t.read(raw.text).value), [];
    }
    return AtomOf(t.zero), [Fault(path, Unreadable(Sent(raw)))];
  }

  method ReadArray(raw: Json, t: Type, path: string) returns (v: Value, bad: seq<Fault>)
    requires t.Slice?
    ensures v == Read(raw, t, LeafName(path))
    ensures bad == Rendered(path, Found(raw, t, LeafName(path)))
    decreases t, 0
  {
    hide LeafName, Read, Found, Render, Zero, Limit;
    if !raw.Arr? && raw != NULL {
      ReadUnfit(raw, t, path);
      return Unset, [Fault(path, Unreadable(Sent(raw)))];
    }
    var items := Items(raw);
    var leaf := LeafName(path);
    var into := seq(|items|, i => Zero(t.elem));
    var most := Limit(leaf, |items|);
    bad := [];
    for i := 0 to most
      invariant |into| == |items|
      invariant forall k :: 0 <= k < i ==> into[k] == Read(items[k], t.elem, LabelOf(leaf, k))
      invariant forall k :: i <= k < |items| ==> into[k] == Zero(t.elem)
      invariant bad == Rendered(path, FoundItems(t, items, leaf, i))
    {
      LeafElement(path, i);
      var one, faults := ReadValue(items[i], t.elem, Element(path, i));
      into := into[i := one];
      RenderedBelow(path, FoundItems(t, items, leaf, i), Index(i), Found(items[i], t.elem, LabelOf(leaf, i)));
      bad := bad + faults;
    }
    ReadSlice(raw, t, leaf, into);
    return Elements(into), bad;
  }

  lemma ReadUnfit(raw: Json, t: Type, path: string)
    requires !Fits(raw, t)
    ensures Read(raw, t, LeafName(path)) == Zero(t)
    ensures Rendered(path, Found(raw, t, LeafName(path))) == [Fault(path, Unreadable(Sent(raw)))]
    ensures t.Slice? ==> Zero(t) == Unset
  {
  }

  lemma ReadSlice(raw: Json, t: Type, leaf: string, into: seq<Value>)
    requires t.Slice? && Fits(raw, t) && |into| == |Items(raw)|
    requires forall k :: 0 <= k < Limit(leaf, |into|) ==> into[k] == Read(Items(raw)[k], t.elem, LabelOf(leaf, k))
    requires forall k :: Limit(leaf, |into|) <= k < |into| ==> into[k] == Zero(t.elem)
    ensures Read(raw, t, leaf) == Elements(into)
    ensures Found(raw, t, leaf) == FoundItems(t, Items(raw), leaf, Limit(leaf, |into|))
  {
    hide Limit, LabelOf;
    assert Read(raw, t, leaf).items == into;
  }

  function ReadField(f: Field, got: map<string, Json>): Value {
    if Taken(f) && Name(f) in got then Read(got[Name(f)], f.of, LeafName(Name(f))) else Zero(f.of)
  }

  method ReadObject(raw: Json, t: Type, path: string) returns (v: Value, bad: seq<Fault>)
    requires t.Struct?
    ensures v == Read(raw, t, LeafName(path))
    ensures bad == Rendered(path, Found(raw, t, LeafName(path)))
    decreases t, 0, 1
  {
    hide LeafName, Read, Found, Render, Zero, Got, Sorted;
    if !raw.Obj? {
      ReadUnfit(raw, t, path);
      return Zero(t), [Fault(path, Unreadable(Sent(raw)))];
    }
    var got := Got(raw.members);
    var into, defined, faults := ReadFields(got, t, path);
    var extras := ReadExtras(t, Sorted(got.Keys), defined, path);
    ReadStruct(raw, t, path, into);
    return Fields(into), faults + extras;
  }

  /** The fields in the order they are declared, and the names they go by. */
  method ReadFields(got: map<string, Json>, t: Type, path: string)
    returns (into: seq<Value>, defined: set<string>, bad: seq<Fault>)
    requires t.Struct?
    ensures |into| == |t.fields|
    ensures forall k :: 0 <= k < |into| ==> into[k] == ReadField(t.fields[k], got)
    ensures defined == NamesOf(t)
    ensures bad == Rendered(path, FoundFields(t, got, |t.fields|))
    decreases t, 0, 0
  {
    hide LeafName, Read, Found, Render, Zero, Name, Below, Rendered, Under;
    var fields := t.fields;
    into := seq(|fields|, i requires 0 <= i < |fields| => Zero(fields[i].of));
    defined := {};
    bad := [];
    for i := 0 to |fields|
      invariant |into| == |fields|
      invariant forall k :: 0 <= k < i ==> into[k] == ReadField(fields[k], got)
      invariant forall k :: i <= k < |fields| ==> into[k] == Zero(fields[k].of)
      invariant defined == set k | 0 <= k < i && Taken(fields[k]) :: Name(fields[k])
      invariant bad == Rendered(path, FoundFields(t, got, i))
    {
      var f := fields[i];
      if Taken(f) {
        defined := defined + {Name(f)};
        if Name(f) in got {
          LeafUnder(path, Name(f));
          var one, faults := ReadValue(got[Name(f)], f.of, Under(path, Name(f)));
          into := into[i := one];
          RenderedBelow(path, FoundFields(t, got, i), In(i, Name(f)), Found(got[Name(f)], f.of, LeafName(Name(f))));
          bad := bad + faults;
        }
      }
    }
  }

  method ReadExtras(t: Type, names: seq<string>, defined: set<string>, path: string) returns (bad: seq<Fault>)
    requires t.Struct? && defined == NamesOf(t)
    ensures bad == Rendered(path, FoundExtras(t, names))
  {
    hide NamesOf, Sorted, Under;
    bad := [];
    for i := 0 to |names|
      invariant bad == Rendered(path, FoundExtras(t, names[..i]))
    {
      assert names[..i + 1][..i] == names[..i];
      if names[i] !in defined {
        bad := bad + [Fault(Under(path, names[i]), Undefined(Sorted(NamesOf(t))))];
        assert Render(path, [Extra(names[i])]) == Under(path, names[i]);
      }
    }
    assert names[..|names|] == names;
  }

  lemma ReadStruct(raw: Json, t: Type, path: string, into: seq<Value>)
    requires t.Struct? && raw.Obj? && |into| == |t.fields|
    requires forall k :: 0 <= k < |into| ==> into[k] == ReadField(t.fields[k], Got(raw.members))
    ensures Read(raw, t, LeafName(path)) == Fields(into)
    ensures var got := Got(raw.members);
      Rendered(path, Found(raw, t, LeafName(path)))
        == Rendered(path, FoundFields(t, got, |t.fields|)) + Rendered(path, FoundExtras(t, Sorted(got.Keys)))
  {
    hide LeafName, Render, Got, Sorted;
    assert Read(raw, t, LeafName(path)).fields == into;
  }
}
