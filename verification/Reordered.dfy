/** What of a body the decoder cannot tell: the order of an object's members, and what
    lies past the bound on a counted array. */
module Reordered {
  import opened Text
  import opened Decode
  import opened Faults

  // -------------------------------------------------------------- the order of members

  /** No name twice in one object. */
  ghost predicate Distinct(members: seq<Member>) {
    forall i, j :: 0 <= i < j < |members| ==> members[i].name != members[j].name
  }

  /** The same json, but for the order of members, at any depth. */
  ghost predicate Same(a: Json, b: Json) {
    match a
    case Lit(_) => a == b
    case Arr(items) =>
      b.Arr? && |items| == |b.items| && forall i :: 0 <= i < |items| ==> Same(items[i], b.items[i])
    case Obj(members) =>
      b.Obj? && (exists order ::
        Matched(members, b.members, order)
        && forall i :: 0 <= i < |members| ==> Same(members[i].value, b.members[order[i]].value))
  }

  /** `order` says where in `later` each of `members` is, by name. */
  ghost predicate Matched(members: seq<Member>, later: seq<Member>, order: seq<nat>) {
    && |order| == |members| == |later| && Distinct(members) && Distinct(later)
    && (forall i :: 0 <= i < |order| ==> order[i] < |later| && later[order[i]].name == members[i].name)
    && (forall k :: 0 <= k < |later| ==> Covers(order, k))
  }

  ghost predicate Covers(order: seq<nat>, k: nat) { exists i :: 0 <= i < |order| && order[i] == k }

  lemma {:induction false} GotIs(members: seq<Member>, i: nat)
    requires Distinct(members) && i < |members|
    ensures members[i].name in Got(members) && Got(members)[members[i].name] == members[i].value
  {
    if i == |members| - 1 {
    } else {
      GotIs(members[..|members| - 1], i);
    }
  }

  lemma {:induction false} GotFrom(members: seq<Member>, name: string) returns (i: nat)
    requires name in Got(members)
    ensures i < |members| && members[i].name == name && members[i].value == Got(members)[name]
  {
    var n := |members| - 1;
    if members[n].name == name { i := n; } else { i := GotFrom(members[..n], name); }
  }

  /** What is sent under a name is the same whatever the order. */
  lemma SameUnderAName(a: Json, b: Json, name: string)
    requires a.Obj? && Same(a, b)
    ensures b.Obj? && (name in Got(a.members) <==> name in Got(b.members))
    ensures name in Got(a.members) ==> Same(Got(a.members)[name], Got(b.members)[name])
  {
    hide Got, Distinct;
    var order :| Matched(a.members, b.members, order)
      && forall i :: 0 <= i < |a.members| ==> Same(a.members[i].value, b.members[order[i]].value);
    if name in Got(a.members) {
      var i := GotFrom(a.members, name);
      GotIs(b.members, order[i]);
    }
    if name in Got(b.members) {
      var k := GotFrom(b.members, name);
      assert Covers(order, k);
      var i :| 0 <= i < |order| && order[i] == k;
      GotIs(a.members, i);
    }
  }

  lemma SameKeys(a: Json, b: Json)
    requires a.Obj? && Same(a, b)
    ensures b.Obj? && Got(a.members).Keys == Got(b.members).Keys
  {
    hide Got;
    forall name ensures name in Got(a.members) <==> name in Got(b.members) { SameUnderAName(a, b, name); }
  }

  lemma SameFits(a: Json, b: Json, t: Type)
    requires Same(a, b)
    ensures Fits(a, t) <==> Fits(b, t)
    ensures Sent(a) == Sent(b)
  {
  }

  /** Reordered members change neither the faults found nor what is read. */
  lemma {:induction false} SameDecodes(a: Json, b: Json, t: Type, leaf: string)
    requires Same(a, b)
    ensures Found(a, t, leaf) == Found(b, t, leaf)
    ensures Read(a, t, leaf) == Read(b, t, leaf)
    decreases t, 1
  {
    hide Same, Got, Limit, LabelOf, Sorted, NamesOf, FoundItems, FoundFields, FoundExtras, Name;
    SameFits(a, b, t);
    if !Fits(a, t) {
    } else {
      match t
      case Leaf(_, _, _) => SameLit(a, b);
      case Slice(_) => SameSlice(a, b, t, leaf);
      case Struct(_) => SameStruct(a, b, t, leaf);
    }
  }

  lemma SameLit(a: Json, b: Json)
    requires Same(a, b) && a.Lit?
    ensures a == b
  {
  }

  lemma SameItems(a: Json, b: Json)
    requires Same(a, b)
    ensures |Items(a)| == |Items(b)| && forall i :: 0 <= i < |Items(a)| ==> Same(Items(a)[i], Items(b)[i])
  {
  }

  lemma {:induction false} SameSlice(a: Json, b: Json, t: Type, leaf: string)
    requires Same(a, b) && t.Slice? && Fits(a, t) && Fits(b, t)
    ensures Found(a, t, leaf) == Found(b, t, leaf) && Read(a, t, leaf) == Read(b, t, leaf)
    decreases t, 0
  {
    hide Same, Limit, LabelOf, FoundItems;
    SameItems(a, b);
    var n := |Items(a)|;
    forall i | 0 <= i < n
      ensures Read(Items(a)[i], t.elem, LabelOf(leaf, i)) == Read(Items(b)[i], t.elem, LabelOf(leaf, i))
      ensures Found(Items(a)[i], t.elem, LabelOf(leaf, i)) == Found(Items(b)[i], t.elem, LabelOf(leaf, i))
    {
      SameDecodes(Items(a)[i], Items(b)[i], t.elem, LabelOf(leaf, i));
    }
    ItemsAgree(t, Items(a), Items(b), leaf, Limit(leaf, n));
    ReadSlice(a, t, leaf, Read(b, t, leaf).items);
  }

  lemma {:induction false} ItemsAgree(t: Type, a: seq<Json>, b: seq<Json>, leaf: string, n: nat)
    requires t.Slice? && n <= |a| && n <= |b|
    requires forall i :: 0 <= i < n ==> Found(a[i], t.elem, LabelOf(leaf, i)) == Found(b[i], t.elem, LabelOf(leaf, i))
    ensures FoundItems(t, a, leaf, n) == FoundItems(t, b, leaf, n)
    decreases n
  {
    hide Found, LabelOf;
    if n == 0 {
    } else {
      ItemsAgree(t, a, b, leaf, n - 1);
    }
  }

  lemma {:induction false} SameStruct(a: Json, b: Json, t: Type, leaf: string)
    requires Same(a, b) && t.Struct? && Fits(a, t) && Fits(b, t)
    ensures Found(a, t, leaf) == Found(b, t, leaf) && Read(a, t, leaf) == Read(b, t, leaf)
    decreases t, 0
  {
    hide Same, Got, LeafName, FoundFields, FoundExtras, Sorted, Name, NamesOf;
    var into := Read(b, t, leaf).fields;
    SameKeys(a, b);
    forall i | 0 <= i < |t.fields| ensures FieldAgrees(t.fields[i], Got(a.members), Got(b.members)) {
      SameField(a, b, t, i);
    }
    FieldsAgree(t, Got(a.members), Got(b.members), |t.fields|);
    assert Read(a, t, leaf).fields == into;
  }

  lemma {:induction false} SameField(a: Json, b: Json, t: Type, i: nat)
    requires Same(a, b) && a.Obj? && b.Obj? && t.Struct? && i < |t.fields|
    ensures FieldAgrees(t.fields[i], Got(a.members), Got(b.members))
    decreases t, 0, 0
  {
    hide Same, Got, LeafName, Read, Found, Name;
    var f := t.fields[i];
    SameUnderAName(a, b, Name(f));
    if IsField(f, Name(f), Got(a.members)) {
      SameDecodes(Got(a.members)[Name(f)], Got(b.members)[Name(f)], f.of, LeafName(Name(f)));
    }
  }

  ghost predicate FieldAgrees(f: Field, a: map<string, Json>, b: map<string, Json>) {
    && (IsField(f, Name(f), a) <==> IsField(f, Name(f), b))
    && (IsField(f, Name(f), a) ==>
      && Found(a[Name(f)], f.of, LeafName(Name(f))) == Found(b[Name(f)], f.of, LeafName(Name(f)))
      && Read(a[Name(f)], f.of, LeafName(Name(f))) == Read(b[Name(f)], f.of, LeafName(Name(f))))
  }

  lemma {:induction false} FieldsAgree(t: Type, a: map<string, Json>, b: map<string, Json>, n: nat)
    requires t.Struct? && n <= |t.fields|
    requires forall i :: 0 <= i < |t.fields| ==> FieldAgrees(t.fields[i], a, b)
    ensures FoundFields(t, a, n) == FoundFields(t, b, n)
    decreases n
  {
    hide Found, Read, LeafName, Name;
    if n == 0 {
    } else {
      FieldsAgree(t, a, b, n - 1);
      assert FieldAgrees(t.fields[n - 1], a, b);
    }
  }

  function IndexOf(members: seq<Member>, m: Member): (i: nat)
    requires m in members
    ensures i < |members| && members[i] == m
  {
    if members[|members| - 1] == m then |members| - 1 else IndexOf(members[..|members| - 1], m)
  }

  /** Members put in any other order are the same json. */
  lemma PermutedIsSame(members: seq<Member>, later: seq<Member>)
    requires multiset(members) == multiset(later) && Distinct(members) && Distinct(later)
    requires forall i :: 0 <= i < |members| ==> Tidy(members[i].value)
    ensures Same(Obj(members), Obj(later))
  {
    hide IndexOf;
    forall m ensures m in members <==> m in later { assert m in multiset(members) <==> m in multiset(later); }
    assert |members| == |multiset(members)| == |later|;
    var order: seq<nat> := seq(|members|, i requires 0 <= i < |members| => IndexOf(later, members[i]));
    forall k | 0 <= k < |later| ensures Covers(order, k) {
      var i := IndexOf(members, later[k]);
      assert order[i] == k;
    }
    assert Matched(members, later, order);
    forall i | 0 <= i < |members| ensures Same(members[i].value, later[order[i]].value) {
      SameItself(members[i].value);
    }
  }

  /** Names are unique in every object of the body. */
  ghost predicate Tidy(j: Json) {
    match j
    case Lit(_) => true
    case Arr(items) => forall i :: 0 <= i < |items| ==> Tidy(items[i])
    case Obj(members) => Distinct(members) && forall i :: 0 <= i < |members| ==> Tidy(members[i].value)
  }

  lemma {:induction false} SameItself(j: Json)
    requires Tidy(j)
    ensures Same(j, j)
    decreases j
  {
    match j
    case Lit(_) =>
    case Arr(items) => forall i | 0 <= i < |items| ensures Same(items[i], items[i]) { SameItself(items[i]); }
    case Obj(members) =>
      var order: seq<nat> := seq(|members|, i => i);
      forall k | 0 <= k < |members| ensures Covers(order, k) { assert order[k] == k; }
      assert Matched(members, members, order);
      forall i | 0 <= i < |members| ensures Same(members[i].value, members[order[i]].value) {
        SameItself(members[i].value);
      }
  }

  // ----------------------------------------------------------------- past the bound

  /** Whatever lies past the bound, the faults and the value are the same, and the value
      is as long as the array that was sent. */
  lemma NothingPastTheBound(a: seq<Json>, b: seq<Json>, t: Type, leaf: string)
    requires t.Slice? && |a| == |b| && a[..Limit(leaf, |a|)] == b[..Limit(leaf, |a|)]
    ensures Found(Arr(a), t, leaf) == Found(Arr(b), t, leaf)
    ensures Read(Arr(a), t, leaf) == Read(Arr(b), t, leaf)
    ensures Read(Arr(a), t, leaf).Elements? && |Read(Arr(a), t, leaf).items| == |a|
  {
    hide Limit, LabelOf, FoundItems;
    var n := Limit(leaf, |a|);
    forall i | 0 <= i < n ensures a[i] == b[i] { assert a[..n][i] == b[..n][i]; }
    ItemsAgree(t, a, b, leaf, n);
    ReadSlice(Arr(a), t, leaf, Read(Arr(b), t, leaf).items);
  }
}
