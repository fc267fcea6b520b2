/** What the decoder's faults are: exactly the places where a body is not what its type
    asks, each once, in an order the body has no say in. */
module Faults {
  import opened Text
  import opened Decode

  // ------------------------------------------------------- a fault, by its place alone

  datatype Spot = Spot(json: Json, of: Type, leaf: string)

  /** The value the steps lead to, and what it should have been. Nothing is under a value
      of the wrong shape, a name the type does not take, or an element past the bound. */
  function Walk(j: Json, t: Type, leaf: string, steps: seq<Step>): Option<Spot>
    decreases |steps|
  {
    if steps == [] then Some(Spot(j, t, leaf))
    else if !Fits(j, t) then None
    else
      match steps[0]
      case Index(i) =>
        if t.Slice? && i < Limit(leaf, |Items(j)|) then Walk(Items(j)[i], t.elem, LabelOf(leaf, i), steps[1..])
          else None
      case In(i, name) =>
        if t.Struct? && i < |t.fields| && Taken(t.fields[i]) && name == Name(t.fields[i]) && name in Got(j.members)
        then Walk(Got(j.members)[name], t.fields[i].of, LeafName(name), steps[1..]) else None
      case Extra(_) => None
  }

  /** What a refusal says was sent: a literal as it stood, a composite by its word. */
  predicate SaysSent(j: Json, sent: string) {
    (j.Lit? ==> sent == j.text) && (j.Arr? ==> sent == "array") && (j.Obj? ==> sent == "object")
  }

  /** A value that cannot be read, or a name its object does not take. */
  ghost predicate IsFault(j: Json, t: Type, leaf: string, s: Site) {
    match s.what
    case Unreadable(sent) =>
      var at := Walk(j, t, leaf, s.steps);
      at.Some? && !Fits(at.value.json, at.value.of) && SaysSent(at.value.json, sent)
    case Undefined(valid) =>
      s.steps != [] && s.steps[|s.steps| - 1].Extra? &&
      IsUndefined(Walk(j, t, leaf, s.steps[..|s.steps| - 1]), s.steps[|s.steps| - 1].name, valid)
  }

  ghost predicate IsUndefined(at: Option<Spot>, name: string, valid: seq<string>) {
    && at.Some? && Fits(at.value.json, at.value.of) && at.value.of.Struct?
    && name in Got(at.value.json.members) && name !in NamesOf(at.value.of)
    && valid == Sorted(NamesOf(at.value.of))
  }

  /** A site below the root, seen from the value one step down. */
  function Inside(s: Site): Site
    requires s.steps != []
  {
    Site(s.steps[1..], s.what)
  }

  predicate Starts(s: Site, step: Step) { s.steps != [] && s.steps[0] == step }

  lemma BelowMeans(step: Step, sites: seq<Site>, s: Site)
    ensures s in Below(step, sites) <==> Starts(s, step) && Inside(s) in sites
  {
    var r := Below(step, sites);
    if s in r {
      var i :| 0 <= i < |r| && r[i] == s;
      assert Inside(s) == sites[i];
    }
    if Starts(s, step) && Inside(s) in sites {
      var i :| 0 <= i < |sites| && sites[i] == Inside(s);
      assert [step] + sites[i].steps == s.steps;
      assert r[i] == s;
    }
  }

  /** A fault some steps down is a fault of the value one step down. */
  lemma FaultBelow(j: Json, t: Type, leaf: string, s: Site, k: Json, u: Type, under: string)
    requires s.steps != [] && !s.steps[0].Extra?
    requires Walk(j, t, leaf, s.steps[..1]) == Some(Spot(k, u, under))
    ensures IsFault(j, t, leaf, s) <==> IsFault(k, u, under, Inside(s))
  {
    hide Walk, Fits, SaysSent, IsUndefined;
    WalkOn(j, t, leaf, s.steps);
    if |s.steps| > 1 {
      var front := s.steps[..|s.steps| - 1];
      WalkOn(j, t, leaf, front);
      assert front[..1] == s.steps[..1];
      assert front[1..] == s.steps[1..][..|s.steps[1..]| - 1];
    }
  }

  lemma WalkOn(j: Json, t: Type, leaf: string, steps: seq<Step>)
    requires steps != []
    ensures var one := Walk(j, t, leaf, steps[..1]);
      Walk(j, t, leaf, steps) == if one.None? then None
        else Walk(one.value.json, one.value.of, one.value.leaf, steps[1..])
  {
    assert steps[..1][1..] == [];
  }

  /** And there is none where there is no step down. */
  lemma NoFaultBelow(j: Json, t: Type, leaf: string, s: Site)
    requires s.steps != [] && !s.steps[0].Extra? && Walk(j, t, leaf, s.steps[..1]).None?
    ensures !IsFault(j, t, leaf, s)
  {
    WalkOn(j, t, leaf, s.steps);
    if |s.steps| > 1 {
      var front := s.steps[..|s.steps| - 1];
      WalkOn(j, t, leaf, front);
      assert front[..1] == s.steps[..1];
    }
  }

  lemma {:induction false} ItemsMembers(t: Type, items: seq<Json>, leaf: string, n: nat, s: Site)
    requires t.Slice? && n <= |items|
    ensures s in FoundItems(t, items, leaf, n) <==>
      s.steps != [] && s.steps[0].Index? && s.steps[0].i < n
      && Inside(s) in Found(items[s.steps[0].i], t.elem, LabelOf(leaf, s.steps[0].i))
    decreases n
  {
    hide Found, LabelOf;
    if n == 0 {
    } else {
      ItemsMembers(t, items, leaf, n - 1, s);
      BelowMeans(Index(n - 1), Found(items[n - 1], t.elem, LabelOf(leaf, n - 1)), s);
    }
  }

  lemma {:induction false} FieldsMembers(t: Type, got: map<string, Json>, n: nat, s: Site)
    requires t.Struct? && n <= |t.fields|
    ensures s in FoundFields(t, got, n) <==>
      s.steps != [] && s.steps[0].In? && s.steps[0].field < n
      && IsField(t.fields[s.steps[0].field], s.steps[0].name, got)
      && Inside(s) in Found(got[s.steps[0].name], t.fields[s.steps[0].field].of, LeafName(s.steps[0].name))
    decreases n
  {
    hide Found, LeafName, Name, Taken, Below;
    if n == 0 {
    } else {
      FieldsMembers(t, got, n - 1, s);
      var f := t.fields[n - 1];
      if Taken(f) && Name(f) in got {
        BelowMeans(In(n - 1, Name(f)), Found(got[Name(f)], f.of, LeafName(Name(f))), s);
      }
    }
  }

  predicate IsField(f: Field, name: string, got: map<string, Json>) { Taken(f) && name == Name(f) && name in got }

  lemma {:induction false} ExtrasMembers(t: Type, names: seq<string>, s: Site)
    requires t.Struct?
    ensures s in FoundExtras(t, names) <==>
      |s.steps| == 1 && s.steps[0].Extra? && s.steps[0].name in names && s.steps[0].name !in NamesOf(t)
      && s.what == Undefined(Sorted(NamesOf(t)))
  {
    hide NamesOf, Sorted;
    if names == [] {
    } else {
      ExtrasMembers(t, names[..|names| - 1], s);
      assert names == names[..|names| - 1] + [names[|names| - 1]];
      assert s.steps == [Extra(names[|names| - 1])] <==> |s.steps| == 1 && s.steps[0] == Extra(names[|names| - 1]);
    }
  }

  /** The decoder finds a fault exactly where there is one, by its place and its kind. */
  lemma {:induction false} FoundExactly(j: Json, t: Type, leaf: string, s: Site)
    ensures s in Found(j, t, leaf) <==> IsFault(j, t, leaf, s)
    decreases t
  {
    if !Fits(j, t) {
      UnfitFault(j, t, leaf, s);
    } else {
      match t
      case Leaf(_, _, _) => LeafFault(j, t, leaf, s);
      case Slice(_) => SliceFault(j, t, leaf, s);
      case Struct(_) => StructFault(j, t, leaf, s);
    }
  }

  lemma UnfitFault(j: Json, t: Type, leaf: string, s: Site)
    requires !Fits(j, t)
    ensures s in Found(j, t, leaf) <==> IsFault(j, t, leaf, s)
  {
  }

  lemma LeafFault(j: Json, t: Type, leaf: string, s: Site)
    requires Fits(j, t) && t.Leaf?
    ensures s in Found(j, t, leaf) <==> IsFault(j, t, leaf, s)
  {
  }

  lemma {:induction false} SliceFault(j: Json, t: Type, leaf: string, s: Site)
    requires Fits(j, t) && t.Slice?
    ensures s in Found(j, t, leaf) <==> IsFault(j, t, leaf, s)
    decreases t, 0
  {
    hide IsFault, Limit, LabelOf;
    var n := Limit(leaf, |Items(j)|);
    ItemsMembers(t, Items(j), leaf, n, s);
    if s.steps == [] || s.steps[0].Extra? {
      RootFault(j, t, leaf, s);
    } else if s.steps[0].Index? && s.steps[0].i < n {
      var i := s.steps[0].i;
      assert s.steps[..1][1..] == [];
      FoundExactly(Items(j)[i], t.elem, LabelOf(leaf, i), Inside(s));
      FaultBelow(j, t, leaf, s, Items(j)[i], t.elem, LabelOf(leaf, i));
    } else {
      NoFaultBelow(j, t, leaf, s);
    }
  }

  lemma RootFault(j: Json, t: Type, leaf: string, s: Site)
    requires Fits(j, t) && (s.steps == [] || s.steps[0].Extra?)
    ensures IsFault(j, t, leaf, s) <==>
      |s.steps| == 1 && t.Struct? && s.what == Undefined(Sorted(NamesOf(t)))
      && s.steps[0].name in Got(j.members) && s.steps[0].name !in NamesOf(t)
  {
    hide Sorted, NamesOf, Got;
    if |s.steps| > 1 { assert s.steps[..|s.steps| - 1][0] == s.steps[0]; }
  }

  lemma {:induction false} StructFault(j: Json, t: Type, leaf: string, s: Site)
    requires Fits(j, t) && t.Struct?
    ensures s in Found(j, t, leaf) <==> IsFault(j, t, leaf, s)
    decreases t, 0
  {
    hide IsFault, Sorted, NamesOf, Got, LeafName, Name;
    var got := Got(j.members);
    FieldsMembers(t, got, |t.fields|, s);
    ExtrasMembers(t, Sorted(got.Keys), s);
    if s.steps == [] || s.steps[0].Extra? {
      RootFault(j, t, leaf, s);
    } else if s.steps[0].In? && s.steps[0].field < |t.fields| &&
      IsField(t.fields[s.steps[0].field], s.steps[0].name, got) {
      var i, name := s.steps[0].field, s.steps[0].name;
      assert s.steps[..1][1..] == [];
      FoundExactly(got[name], t.fields[i].of, LeafName(name), Inside(s));
      FaultBelow(j, t, leaf, s, got[name], t.fields[i].of, LeafName(name));
    } else {
      NoFaultBelow(j, t, leaf, s);
    }
  }

  // -------------------------------------------------------------- no fault: it conforms

  /** The body is what its type asks, up to the bound on a counted array. */
  ghost predicate Conforms(j: Json, t: Type, leaf: string)
    decreases t
  {
    && Fits(j, t)
    && (t.Slice? ==> forall i :: 0 <= i < Limit(leaf, |Items(j)|) ==> Conforms(Items(j)[i], t.elem, LabelOf(leaf, i)))
    && (t.Struct? ==> FieldsConform(j, t) && Got(j.members).Keys <= NamesOf(t))
  }

  ghost predicate FieldsConform(j: Json, t: Type)
    requires t.Struct? && j.Obj?
    decreases t, 0
  {
    forall i :: 0 <= i < |t.fields| && IsField(t.fields[i], Name(t.fields[i]), Got(j.members)) ==>
      Conforms(Got(j.members)[Name(t.fields[i])], t.fields[i].of, LeafName(Name(t.fields[i])))
  }

  /** The decoder returns no fault exactly when the body conforms. */
  lemma {:induction false} NoFaultsMeansConforms(j: Json, t: Type, leaf: string)
    ensures Found(j, t, leaf) == [] <==> Conforms(j, t, leaf)
    decreases t, 1
  {
    hide Got, Name, Sorted, NamesOf, LabelOf, LeafName, Limit, FoundItems, FoundFields, FoundExtras, Below;
    if !Fits(j, t) {
    } else {
      match t
      case Leaf(_, _, _) =>
      case Slice(_) => NoItemFaults(t, Items(j), leaf, Limit(leaf, |Items(j)|));
      case Struct(_) =>
        NoFieldFaults(j, t, |t.fields|);
        NoExtraFaults(t, Sorted(Got(j.members).Keys));
    }
  }

  lemma {:induction false} NoItemFaults(t: Type, items: seq<Json>, leaf: string, n: nat)
    requires t.Slice? && n <= |items|
    ensures FoundItems(t, items, leaf, n) == [] <==>
      forall i :: 0 <= i < n ==> Conforms(items[i], t.elem, LabelOf(leaf, i))
    decreases t, 0, n
  {
    hide Found, LabelOf, Conforms;
    if n == 0 {
    } else {
      NoItemFaults(t, items, leaf, n - 1);
      NoFaultsMeansConforms(items[n - 1], t.elem, LabelOf(leaf, n - 1));
    }
  }

  lemma {:induction false} NoFieldFaults(j: Json, t: Type, n: nat)
    requires t.Struct? && j.Obj? && n <= |t.fields|
    ensures FoundFields(t, Got(j.members), n) == [] <==>
      forall i :: 0 <= i < n && IsField(t.fields[i], Name(t.fields[i]), Got(j.members)) ==>
        Conforms(Got(j.members)[Name(t.fields[i])], t.fields[i].of, LeafName(Name(t.fields[i])))
    decreases t, 0, n
  {
    hide Found, LeafName, Conforms, Got, Name;
    if n == 0 {
    } else {
      NoFieldFaults(j, t, n - 1);
      var f := t.fields[n - 1];
      if IsField(f, Name(f), Got(j.members)) {
        NoFaultsMeansConforms(Got(j.members)[Name(f)], f.of, LeafName(Name(f)));
      }
    }
  }

  lemma {:induction false} NoExtraFaults(t: Type, names: seq<string>)
    requires t.Struct?
    ensures FoundExtras(t, names) == [] <==> forall x :: x in names ==> x in NamesOf(t)
  {
    hide NamesOf, Sorted;
    if names == [] {
    } else {
      var front, last := names[..|names| - 1], names[|names| - 1];
      NoExtraFaults(t, front);
      assert names == front + [last];
      assert FoundExtras(t, names) == [] <==> FoundExtras(t, front) == [] && last in NamesOf(t);
    }
  }

  // ---------------------------------------------------------- the order, and each once

  predicate StepBefore(a: Step, b: Step) {
    match a
    case Index(i) => b.Index? && i < b.i
    case In(i, _) => b.Extra? || (b.In? && i < b.field)
    case Extra(x) => b.Extra? && Less(x, b.name)
  }

  /** An order on places that only the type and the names decide. */
  predicate Before(a: seq<Step>, b: seq<Step>)
    decreases |a|
  {
    if a == [] then b != []
    else b != [] && (StepBefore(a[0], b[0]) || (a[0] == b[0] && Before(a[1..], b[1..])))
  }

  ghost predicate Ordered(sites: seq<Site>) {
    forall i, j :: 0 <= i < j < |sites| ==> Before(sites[i].steps, sites[j].steps)
  }

  lemma {:induction false} BeforeIsStrict(a: seq<Step>)
    ensures !Before(a, a)
    decreases |a|
  {
    if a == [] {
    } else {
      BeforeIsStrict(a[1..]);
      if a[0].Extra? { LessIsTotal(a[0].name, a[0].name); }
    }
  }

  lemma BelowOrdered(step: Step, sites: seq<Site>)
    requires Ordered(sites)
    ensures Ordered(Below(step, sites))
  {
    var r := Below(step, sites);
    forall i, j | 0 <= i < j < |r| ensures Before(r[i].steps, r[j].steps) {
      assert r[i].steps[1..] == sites[i].steps && r[j].steps[1..] == sites[j].steps;
    }
  }

  lemma OrderedConcat(a: seq<Site>, b: seq<Site>)
    requires Ordered(a) && Ordered(b)
    requires forall x, y :: x in a && y in b ==> Before(x.steps, y.steps)
    ensures Ordered(a + b)
  {
    var s := a + b;
    forall i, j | 0 <= i < j < |s| ensures Before(s[i].steps, s[j].steps) {
      if i < |a| <= j { assert s[i] in a && s[j] in b; }
    }
  }

  /** Faults are answered in that order, so each place is named once. */
  lemma {:induction false} FoundInOrder(j: Json, t: Type, leaf: string)
    ensures Ordered(Found(j, t, leaf))
    decreases t, 1
  {
    hide Ordered;
    if !Fits(j, t) {
      OneIsOrdered(Found(j, t, leaf));
    } else {
      match t
      case Leaf(_, _, _) => OneIsOrdered([]);
      case Slice(_) => ItemsOrdered(t, Items(j), leaf, Limit(leaf, |Items(j)|));
      case Struct(_) =>
        var got := Got(j.members);
        var fields, extras := FoundFields(t, got, |t.fields|), FoundExtras(t, Sorted(got.Keys));
        FieldsOrdered(t, got, |t.fields|);
        ExtrasOrdered(t, Sorted(got.Keys));
        forall x, y | x in fields && y in extras ensures Before(x.steps, y.steps) {
          FieldsMembers(t, got, |t.fields|, x);
          ExtrasMembers(t, Sorted(got.Keys), y);
        }
        OrderedConcat(fields, extras);
    }
  }

  lemma OneIsOrdered(sites: seq<Site>)
    requires |sites| <= 1
    ensures Ordered(sites)
  {
  }

  lemma {:induction false} ItemsOrdered(t: Type, items: seq<Json>, leaf: string, n: nat)
    requires t.Slice? && n <= |items|
    ensures Ordered(FoundItems(t, items, leaf, n))
    decreases t, 0, n
  {
    hide Ordered, Found, LabelOf;
    if n == 0 {
      OneIsOrdered([]);
    } else {
      var earlier, own := FoundItems(t, items, leaf, n - 1), Found(items[n - 1], t.elem, LabelOf(leaf, n - 1));
      ItemsOrdered(t, items, leaf, n - 1);
      FoundInOrder(items[n - 1], t.elem, LabelOf(leaf, n - 1));
      BelowOrdered(Index(n - 1), own);
      forall x, y | x in earlier && y in Below(Index(n - 1), own) ensures Before(x.steps, y.steps) {
        ItemsMembers(t, items, leaf, n - 1, x);
        BelowMeans(Index(n - 1), own, y);
      }
      OrderedConcat(earlier, Below(Index(n - 1), own));
    }
  }

  lemma {:induction false} FieldsOrdered(t: Type, got: map<string, Json>, n: nat)
    requires t.Struct? && n <= |t.fields|
    ensures Ordered(FoundFields(t, got, n))
    decreases t, 0, n
  {
    hide Ordered, Found, LeafName, Name;
    if n == 0 {
      OneIsOrdered([]);
    } else {
      var f, earlier := t.fields[n - 1], FoundFields(t, got, n - 1);
      FieldsOrdered(t, got, n - 1);
      if Taken(f) && Name(f) in got {
        var step, own := In(n - 1, Name(f)), Found(got[Name(f)], f.of, LeafName(Name(f)));
        FoundInOrder(got[Name(f)], f.of, LeafName(Name(f)));
        BelowOrdered(step, own);
        forall x, y | x in earlier && y in Below(step, own) ensures Before(x.steps, y.steps) {
          FieldsMembers(t, got, n - 1, x);
          BelowMeans(step, own, y);
        }
        OrderedConcat(earlier, Below(step, own));
      } else {
        assert FoundFields(t, got, n) == earlier;
      }
    }
  }

  lemma {:induction false} ExtrasOrdered(t: Type, names: seq<string>)
    requires t.Struct? && Ascending(names)
    ensures Ordered(FoundExtras(t, names))
  {
    hide Ordered, NamesOf, Sorted;
    if names == [] {
      OneIsOrdered([]);
    } else {
      var last, rest := names[|names| - 1], names[..|names| - 1];
      var earlier := FoundExtras(t, rest);
      ExtrasOrdered(t, rest);
      if last !in NamesOf(t) {
        var own := [Site([Extra(last)], Undefined(Sorted(NamesOf(t))))];
        OneIsOrdered(own);
        forall x | x in earlier ensures Before(x.steps, [Extra(last)]) {
          ExtrasMembers(t, rest, x);
          var i :| 0 <= i < |rest| && rest[i] == x.steps[0].name;
          assert Less(names[i], last);
        }
        OrderedConcat(earlier, own);
      } else {
        assert FoundExtras(t, names) == earlier;
      }
    }
  }

  /** One fault a place: no place is refused twice, however often the body goes wrong. */
  lemma EachPlaceOnce(j: Json, t: Type, leaf: string)
    ensures var sites := Found(j, t, leaf);
      forall i, k :: 0 <= i < |sites| && 0 <= k < |sites| && sites[i].steps == sites[k].steps ==> i == k
  {
    hide Found;
    var sites := Found(j, t, leaf);
    FoundInOrder(j, t, leaf);
    forall i, k | 0 <= i < k < |sites| ensures sites[i].steps != sites[k].steps {
      BeforeIsStrict(sites[i].steps);
    }
  }
}
