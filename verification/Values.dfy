/** What the decoder reads: at every place of the request what the body says there, and the
    blank of its type where the body says nothing that can be read. */
module Values {
  import opened Text
  import opened Decode
  import opened Faults

  // --------------------------------------------------------------- places in a value

  /** The part of a value some steps down. */
  function At(v: Value, steps: seq<Step>): Option<Value>
    decreases |steps|
  {
    if steps == [] then Some(v)
    else
      match steps[0]
      case Index(i) => if v.Elements? && i < |v.items| then At(v.items[i], steps[1..]) else None
      case In(i, _) => if v.Fields? && i < |v.fields| then At(v.fields[i], steps[1..]) else None
      case Extra(_) => None
  }

  /** What is seen of a value from outside: a leaf's text, or how many parts it has. */
  datatype Shown = Atom(atom: Atom) | Nothing | Length(n: nat) | Record(n: nat)

  function Top(v: Value): Shown {
    match v
    case AtomOf(atom) => Atom(atom)
    case Unset => Nothing
    case Elements(items) => Length(|items|)
    case Fields(fields) => Record(|fields|)
  }

  function Shows(v: Value, steps: seq<Step>): Option<Shown> {
    var at := At(v, steps);
    if at.None? then None else Some(Top(at.value))
  }

  ghost predicate ShowAlike(v: Value, w: Value) { forall steps :: Shows(v, steps) == Shows(w, steps) }

  lemma AlikeInside(v: Value, w: Value, x: Value, y: Value, step: Step)
    requires ShowAlike(v, w) && At(v, [step]) == Some(x) && At(w, [step]) == Some(y)
    ensures ShowAlike(x, y)
  {
    assert [step][1..] == [];
    forall steps ensures Shows(x, steps) == Shows(y, steps) {
      assert ([step] + steps)[1..] == steps;
      assert Shows(v, [step] + steps) == Shows(w, [step] + steps);
    }
  }

  /** Two values are one exactly when they show the same at every place. */
  lemma {:induction false} ShownIsAll(v: Value, w: Value)
    ensures v == w <==> ShowAlike(v, w)
    decreases v
  {
    if ShowAlike(v, w) {
      assert Shows(v, []) == Shows(w, []);
      if v.Elements? {
        forall i | 0 <= i < |v.items| ensures v.items[i] == w.items[i] {
          assert [Index(i)][1..] == [];
          AlikeInside(v, w, v.items[i], w.items[i], Index(i));
          ShownIsAll(v.items[i], w.items[i]);
        }
        assert v.items == w.items;
      }
      if v.Fields? {
        forall i | 0 <= i < |v.fields| ensures v.fields[i] == w.fields[i] {
          assert [In(i, "")][1..] == [];
          AlikeInside(v, w, v.fields[i], w.fields[i], In(i, ""));
          ShownIsAll(v.fields[i], w.fields[i]);
        }
        assert v.fields == w.fields;
      }
    }
  }

  // ---------------------------------------------------------- what a body says there

  /** A literal the leaf takes, and otherwise its zero. */
  function LeafTold(j: Option<Json>, t: Type): Atom
    requires t.Leaf?
  {
    if j.Some? && j.value.Lit? && t.read(j.value.text).Some? then t.read(j.value.text).value else t.zero
  }

  /** The value sent under the i-th field, where one is. */
  function SentUnder(j: Option<Json>, f: Field): Option<Json> {
    if j.Some? && j.value.Obj? && Taken(f) && Name(f) in Got(j.value.members) then Some(Got(j.value.members)[Name(f)])
    else None
  }

  /** An element sent, where it is one of those that are read. */
  function SentAt(j: Json, leaf: string, i: nat): Option<Json>
    requires j.Arr? && i < |j.items|
  {
    if i < Limit(leaf, |j.items|) then Some(j.items[i]) else None
  }

  /** What a body says at a place of its type; None is a place it does not have. */
  function Told(j: Option<Json>, t: Type, leaf: string, steps: seq<Step>): Option<Shown>
    decreases |steps|
  {
    if steps == [] then
      match t
      case Leaf(_, _, _) => Some(Atom(LeafTold(j, t)))
      case Slice(_) =>
        if j.Some? && j.value.Arr? then Some(Length(|j.value.items|))
        else if j == Some(NULL) then Some(Length(0))
        else Some(Nothing)
      case Struct(fields) => Some(Record(|fields|))
    else
      match steps[0]
      case Index(i) =>
        if t.Slice? && j.Some? && j.value.Arr? && i < |j.value.items|
        then Told(SentAt(j.value, leaf, i), t.elem, LabelOf(leaf, i), steps[1..]) else None
      case In(i, _) =>
        if t.Struct? && i < |t.fields|
        then Told(SentUnder(j, t.fields[i]), t.fields[i].of, LeafName(Name(t.fields[i])), steps[1..]) else None
      case Extra(_) => None
  }

  /** What was not sent is left blank all the way down. */
  lemma {:induction false} BlankIsTold(t: Type, leaf: string, steps: seq<Step>)
    ensures Shows(Zero(t), steps) == Told(None, t, leaf, steps)
    decreases |steps|
  {
    hide LabelOf, LeafName, Name;
    if steps == [] {
    } else if steps[0].In? && t.Struct? && steps[0].field < |t.fields| {
      var f := t.fields[steps[0].field];
      BlankIsTold(f.of, LeafName(Name(f)), steps[1..]);
    }
  }

  lemma ReadInside(j: Json, t: Type, leaf: string)
    requires Fits(j, t)
    ensures t.Slice? && j.Arr? ==>
      Read(j, t, leaf).Elements? && |Read(j, t, leaf).items| == |j.items| &&
        forall i :: 0 <= i < |j.items| ==>
          Read(j, t, leaf).items[i] ==
            if i < Limit(leaf, |j.items|) then Read(j.items[i], t.elem, LabelOf(leaf, i)) else Zero(t.elem)
    ensures t.Slice? && !j.Arr? ==> Read(j, t, leaf) == Elements([])
    ensures t.Struct? ==>
      Read(j, t, leaf).Fields? && |Read(j, t, leaf).fields| == |t.fields| &&
        forall i :: 0 <= i < |t.fields| ==> Read(j, t, leaf).fields[i] == ReadField(t.fields[i], Got(j.members))
  {
    hide Limit, LabelOf, LeafName, Name, Got;
  }

  /** What is read shows at every place what the body says there. */
  lemma {:induction false} ReadIsTold(j: Json, t: Type, leaf: string, steps: seq<Step>)
    ensures Shows(Read(j, t, leaf), steps) == Told(Some(j), t, leaf, steps)
    decreases |steps|
  {
    hide LabelOf, LeafName, Name, Got, Limit, Read, Zero;
    if steps == [] || !Fits(j, t) {
      TopIsTold(j, t, leaf, steps);
    } else {
      ReadInside(j, t, leaf);
      match steps[0]
      case Index(i) =>
        if t.Slice? && j.Arr? && i < |j.items| {
          if i < Limit(leaf, |j.items|) {
            ReadIsTold(j.items[i], t.elem, LabelOf(leaf, i), steps[1..]);
          } else {
            BlankIsTold(t.elem, LabelOf(leaf, i), steps[1..]);
          }
        } else {
          NoElement(j, t, leaf, steps);
        }
      case In(i, _) =>
        if t.Struct? && i < |t.fields| {
          var f := t.fields[i];
          if SentUnder(Some(j), f).Some? {
            ReadIsTold(Got(j.members)[Name(f)], f.of, LeafName(Name(f)), steps[1..]);
          } else {
            BlankIsTold(f.of, LeafName(Name(f)), steps[1..]);
          }
        } else {
          NoField(j, t, leaf, steps);
        }
      case Extra(_) =>
    }
  }

  lemma NoElement(j: Json, t: Type, leaf: string, steps: seq<Step>)
    requires Fits(j, t) && steps != [] && steps[0].Index? && !(t.Slice? && j.Arr? && steps[0].i < |j.items|)
    ensures Shows(Read(j, t, leaf), steps).None?
  {
    hide LabelOf, LeafName, Name, Got, Limit;
  }

  lemma NoField(j: Json, t: Type, leaf: string, steps: seq<Step>)
    requires Fits(j, t) && steps != [] && steps[0].In? && !(t.Struct? && steps[0].field < |t.fields|)
    ensures Shows(Read(j, t, leaf), steps).None?
  {
    hide LabelOf, LeafName, Name, Got, Limit;
  }

  lemma TopIsTold(j: Json, t: Type, leaf: string, steps: seq<Step>)
    requires steps == [] || !Fits(j, t)
    ensures Shows(Read(j, t, leaf), steps) == Told(Some(j), t, leaf, steps)
  {
    hide LabelOf, LeafName, Name, Got, Limit;
    if !Fits(j, t) {
      BlankIsTold(t, leaf, steps);
      UnfitTells(j, t, leaf, steps);
    }
  }

  /** A value of the wrong shape says nothing. */
  lemma UnfitTells(j: Json, t: Type, leaf: string, steps: seq<Step>)
    requires !Fits(j, t)
    ensures Told(Some(j), t, leaf, steps) == Told(None, t, leaf, steps)
  {
    hide LabelOf, LeafName, Name, Got, Limit;
  }

  ghost predicate TellAlike(a: Json, b: Json, t: Type, leaf: string) {
    forall steps :: Told(Some(a), t, leaf, steps) == Told(Some(b), t, leaf, steps)
  }

  /** Two bodies are read alike exactly when they say the same at every place. */
  lemma ReadAlike(a: Json, b: Json, t: Type, leaf: string)
    ensures Read(a, t, leaf) == Read(b, t, leaf) <==> TellAlike(a, b, t, leaf)
  {
    hide Read, Told, Shows;
    var v, w := Read(a, t, leaf), Read(b, t, leaf);
    ShownIsAll(v, w);
    forall steps ensures Shows(v, steps) == Told(Some(a), t, leaf, steps) { ReadIsTold(a, t, leaf, steps); }
    forall steps ensures Shows(w, steps) == Told(Some(b), t, leaf, steps) { ReadIsTold(b, t, leaf, steps); }
    if ShowAlike(v, w) {
      forall steps ensures Told(Some(a), t, leaf, steps) == Told(Some(b), t, leaf, steps) {
        assert Shows(v, steps) == Shows(w, steps);
      }
    }
    if TellAlike(a, b, t, leaf) {
      forall steps ensures Shows(v, steps) == Shows(w, steps) {
        assert Told(Some(a), t, leaf, steps) == Told(Some(b), t, leaf, steps);
      }
    }
  }

  // --------------------------------------------------- by the steps that lead to a fault

  /** The steps that lead to a value of the body lead to what is read of it. */
  lemma {:induction false} WalkIsTold(j: Json, t: Type, leaf: string, steps: seq<Step>)
    requires Walk(j, t, leaf, steps).Some?
    ensures var spot := Walk(j, t, leaf, steps).value;
      Told(Some(j), t, leaf, steps) == Told(Some(spot.json), spot.of, spot.leaf, [])
    decreases |steps|
  {
    hide LabelOf, LeafName, Name, Got, Limit;
    if steps == [] {
    } else {
      match steps[0]
      case Index(i) => WalkIsTold(Items(j)[i], t.elem, LabelOf(leaf, i), steps[1..]);
      case In(i, name) => WalkIsTold(Got(j.members)[name], t.fields[i].of, LeafName(name), steps[1..]);
    }
  }

  /** Where they lead to a leaf, what is read there is the literal sent, read by that leaf's
      own reader, or its zero where the reader does not take it; where they lead to a slice,
      it is as long as the array that was sent. */
  lemma SentIsRead(j: Json, t: Type, leaf: string, steps: seq<Step>)
    requires Walk(j, t, leaf, steps).Some?
    ensures var spot, at := Walk(j, t, leaf, steps).value, At(Read(j, t, leaf), steps);
      && at.Some?
      && (spot.of.Leaf? && spot.json.Lit? && spot.of.read(spot.json.text).Some? ==>
            at.value == AtomOf(spot.of.read(spot.json.text).value))
      && (spot.of.Leaf? && !Fits(spot.json, spot.of) ==> at.value == AtomOf(spot.of.zero))
      && (spot.of.Slice? && spot.json.Arr? ==> at.value.Elements? && |at.value.items| == |spot.json.items|)
      && (spot.of.Slice? && spot.json == NULL ==> at.value == Elements([]))
      && (spot.of.Slice? && !Fits(spot.json, spot.of) ==> at.value == Unset)
  {
    hide Read, Walk, At;
    ReadIsTold(j, t, leaf, steps);
    WalkIsTold(j, t, leaf, steps);
  }

  /** The type of a place, by the names its fields go by. */
  function TypeAt(t: Type, steps: seq<Step>): Option<Type>
    decreases |steps|
  {
    if steps == [] then Some(t)
    else
      match steps[0]
      case Index(_) => if t.Slice? then TypeAt(t.elem, steps[1..]) else None
      case In(i, name) =>
        if t.Struct? && i < |t.fields| && name == Name(t.fields[i]) then TypeAt(t.fields[i].of, steps[1..]) else None
      case Extra(_) => None
  }

  lemma {:induction false} BlankAt(t: Type, steps: seq<Step>)
    requires TypeAt(t, steps).Some? && At(Zero(t), steps).Some?
    ensures At(Zero(t), steps).value == Zero(TypeAt(t, steps).value)
    decreases |steps|
  {
    hide Name;
    if steps == [] {
    } else {
      match steps[0]
      case Index(_) =>
      case In(i, _) => BlankAt(t.fields[i].of, steps[1..]);
    }
  }

  /** And where they lead nowhere, the field not sent, its value or one above it of the wrong
      shape, or the element past the bound, it is blank. */
  lemma {:induction false} UnsentIsBlank(j: Json, t: Type, leaf: string, steps: seq<Step>)
    requires Walk(j, t, leaf, steps).None? && TypeAt(t, steps).Some? && At(Read(j, t, leaf), steps).Some?
    ensures var of, at := TypeAt(t, steps).value, At(Read(j, t, leaf), steps).value;
      && (of.Leaf? ==> at == AtomOf(of.zero))
      && (of.Slice? ==> at == Unset)
    decreases |steps|
  {
    hide LabelOf, LeafName, Name, Got, Limit, Read;
    if !Fits(j, t) {
      UnfitIsZero(j, t, leaf);
      BlankAt(t, steps);
    } else {
      ReadInside(j, t, leaf);
      match steps[0]
      case Index(i) =>
        if i < Limit(leaf, |Items(j)|) {
          UnsentIsBlank(j.items[i], t.elem, LabelOf(leaf, i), steps[1..]);
        } else {
          BlankAt(t.elem, steps[1..]);
        }
      case In(i, name) =>
        var f := t.fields[i];
        if SentUnder(Some(j), f).Some? {
          UnsentIsBlank(Got(j.members)[name], f.of, LeafName(name), steps[1..]);
        } else {
          BlankAt(f.of, steps[1..]);
        }
    }
  }

  lemma UnfitIsZero(j: Json, t: Type, leaf: string)
    requires !Fits(j, t)
    ensures Read(j, t, leaf) == Zero(t)
  {
  }
}
