/** The path a fault is refused under names one place in the body: where no name holds a
    dot or a bracket, two faults are never refused under one path. */
module Paths {
  import opened Text
  import opened Decode
  import opened Faults
  import Paging

  predicate Plain(name: string) { '.' !in name && '[' !in name && ']' !in name }

  predicate PlainSteps(steps: seq<Step>) {
    forall i | 0 <= i < |steps| :: steps[i].Index? || Plain(steps[i].name)
  }

  function Mark(step: Step): string {
    if step.Index? then "[" + Paging.Itoa(step.i) + "]" else "." + step.name
  }

  /** What a path says after the value it starts from. */
  function Marks(steps: seq<Step>): string {
    if steps == [] then "" else Mark(steps[0]) + Marks(steps[1..])
  }

  lemma Regroup(a: string, b: string, c: string)
    ensures (a + b) + c == a + (b + c)
  {
  }

  lemma ExtendIsMark(path: string, step: Step)
    requires path != ""
    ensures Extend(path, step) == path + Mark(step) && Extend(path, step) != ""
  {
    hide Paging.Itoa;
    if step.Index? {
      Regroup(path, "[", Paging.Itoa(step.i));
      Regroup(path, "[" + Paging.Itoa(step.i), "]");
    } else {
      Regroup(path, ".", step.name);
    }
  }

  lemma {:induction false} RenderIsMarks(path: string, steps: seq<Step>)
    requires path != ""
    ensures Render(path, steps) == path + Marks(steps)
    decreases |steps|
  {
    hide Extend, Mark;
    if steps == [] {
      assert path + "" == path;
    } else {
      ExtendIsMark(path, steps[0]);
      RenderIsMarks(Extend(path, steps[0]), steps[1..]);
      Regroup(path, Mark(steps[0]), Marks(steps[1..]));
    }
  }

  /** At the top of the body a name stands by itself. */
  lemma RootIsMarks(steps: seq<Step>)
    requires steps != [] && !steps[0].Index? && (steps[0].name != "" || |steps| == 1)
    ensures "." + Render("", steps) == Marks(steps)
  {
    var name := steps[0].name;
    assert Render("", steps) == Render(name, steps[1..]);
    if name != "" {
      RenderIsMarks(name, steps[1..]);
    } else {
      assert steps[1..] == [];
    }
    assert "." + (name + Marks(steps[1..])) == ("." + name) + Marks(steps[1..]);
  }

  // ------------------------------------------------------------------ reading it back

  /** Empty, or starting with one of `stops`. */
  predicate Stopped(s: string, stops: set<char>) { s == "" || s[0] in stops }

  predicate Free(s: string, stops: set<char>) { forall c | c in s :: c !in stops }

  lemma NotStopped(a: string, x: string, stops: set<char>)
    requires Free(a, stops)
    ensures a == "" || !Stopped(a + x, stops)
  {
    if a != "" { assert (a + x)[0] == a[0] && a[0] in a; }
  }

  /** A name ends where the first stop is. */
  lemma {:induction false} FirstStop(a: string, x: string, b: string, y: string, stops: set<char>)
    requires Free(a, stops) && Free(b, stops) && Stopped(x, stops) && Stopped(y, stops)
    requires a + x == b + y
    ensures a == b && x == y
    decreases |a|
  {
    if a == "" || b == "" {
      NotStopped(a, x, stops);
      NotStopped(b, y, stops);
      assert "" + x == x && "" + y == y;
    } else {
      assert a[0] == (a + x)[0] == (b + y)[0] == b[0];
      assert (a + x)[1..] == a[1..] + x && (b + y)[1..] == b[1..] + y;
      FirstStop(a[1..], x, b[1..], y, stops);
      assert a == [a[0]] + a[1..] && b == [b[0]] + b[1..];
    }
  }

  lemma {:induction false} DigitsArePlain(n: nat)
    ensures Plain(Paging.Itoa(n))
  {
    if n < 10 {
    } else {
      DigitsArePlain(n / 10);
    }
  }

  lemma ItoaInjective(m: nat, n: nat)
    requires Paging.Itoa(m) == Paging.Itoa(n)
    ensures m == n
  {
    Paging.DigitsOfItoa(m);
    Paging.DigitsOfItoa(n);
  }

  predicate SameMark(a: Step, b: Step) {
    if a.Index? then a == b else !b.Index? && a.name == b.name
  }

  lemma MarksStop(steps: seq<Step>)
    ensures Stopped(Marks(steps), {'.', '['})
  {
  }

  lemma IndexTold(s: string, u: string, r: string, v: string)
    requires Plain(s) && Plain(r) && ("[" + s + "]") + u == ("[" + r + "]") + v
    ensures s == r && u == v
  {
    assert (("[" + s + "]") + u)[1..] == s + ("]" + u);
    assert (("[" + r + "]") + v)[1..] == r + ("]" + v);
    FirstStop(s, "]" + u, r, "]" + v, {']'});
    assert ("]" + u)[1..] == u && ("]" + v)[1..] == v;
  }

  lemma NameTold(m: string, u: string, n: string, v: string)
    requires Plain(m) && Plain(n) && Stopped(u, {'.', '['}) && Stopped(v, {'.', '['})
    requires ("." + m) + u == ("." + n) + v
    ensures m == n && u == v
  {
    assert (("." + m) + u)[1..] == m + u && (("." + n) + v)[1..] == n + v;
    FirstStop(m, u, n, v, {'.', '['});
  }

  /** The first mark, and what follows it, can be told from the whole. */
  lemma FirstMark(a: Step, u: string, b: Step, v: string)
    requires (a.Index? || Plain(a.name)) && (b.Index? || Plain(b.name))
    requires Stopped(u, {'.', '['}) && Stopped(v, {'.', '['}) && Mark(a) + u == Mark(b) + v
    ensures SameMark(a, b) && u == v
  {
    hide Paging.Itoa, Stopped, Plain;
    assert Mark(a)[0] == (Mark(a) + u)[0] == (Mark(b) + v)[0] == Mark(b)[0];
    if a.Index? {
      DigitsArePlain(a.i);
      DigitsArePlain(b.i);
      IndexTold(Paging.Itoa(a.i), u, Paging.Itoa(b.i), v);
      ItoaInjective(a.i, b.i);
    } else {
      NameTold(a.name, u, b.name, v);
    }
  }

  /** The same path goes by the same names and indices. */
  lemma {:induction false} MarksInjective(a: seq<Step>, b: seq<Step>)
    requires PlainSteps(a) && PlainSteps(b) && Marks(a) == Marks(b)
    ensures |a| == |b| && forall i :: 0 <= i < |a| ==> SameMark(a[i], b[i])
    decreases |a|
  {
    if a == [] || b == [] {
    } else {
      MarksStop(a[1..]);
      MarksStop(b[1..]);
      FirstMark(a[0], Marks(a[1..]), b[0], Marks(b[1..]));
      MarksInjective(a[1..], b[1..]);
    }
  }

  // -------------------------------------------------------------- one path, one place

  /** No struct declares one name twice. */
  ghost predicate DistinctNames(t: Type) {
    match t
    case Leaf(_, _, _) => true
    case Slice(elem) => DistinctNames(elem)
    case Struct(fields) =>
      && (forall i, j ::
           0 <= i < j < |fields| && Taken(fields[i]) && Taken(fields[j]) ==> Name(fields[i]) != Name(fields[j]))
      && forall i :: 0 <= i < |fields| ==> DistinctNames(fields[i].of)
  }

  /** The first step to a fault is one its value allows. */
  predicate Opens(j: Json, t: Type, step: Step) {
    match step
    case Index(_) => t.Slice?
    case In(i, name) => t.Struct? && i < |t.fields| && Taken(t.fields[i]) && Name(t.fields[i]) == name
    case Extra(name) => t.Struct? && name !in NamesOf(t)
  }

  lemma FaultOpens(j: Json, t: Type, leaf: string, s: Site)
    requires IsFault(j, t, leaf, s) && s.steps != []
    ensures Opens(j, t, s.steps[0]) && Fits(j, t)
    ensures s.steps[0].Extra? ==> |s.steps| == 1 && s.what.Undefined?
    ensures !s.steps[0].Extra? ==> Walk(j, t, leaf, s.steps[..1]).Some?
  {
    hide Got, Limit, LabelOf, LeafName, Sorted;
    if |s.steps| > 1 {
      assert s.steps[..|s.steps| - 1][0] == s.steps[0];
    }
  }

  lemma StepTold(j: Json, t: Type, a: Step, b: Step)
    requires DistinctNames(t) && Opens(j, t, a) && Opens(j, t, b) && SameMark(a, b)
    ensures a == b
  {
    hide Name;
  }

  /** Two faults reached by the same names and indices are one. */
  lemma {:induction false} MarksTell(j: Json, t: Type, leaf: string, a: Site, b: Site)
    requires DistinctNames(t) && IsFault(j, t, leaf, a) && IsFault(j, t, leaf, b)
    requires |a.steps| == |b.steps| && forall i :: 0 <= i < |a.steps| ==> SameMark(a.steps[i], b.steps[i])
    ensures a == b
    decreases |a.steps|
  {
    hide IsFault, DistinctNames, Opens;
    if a.steps == [] {
      RootIsOne(j, t, leaf, a, b);
    } else {
      FaultOpens(j, t, leaf, a);
      FaultOpens(j, t, leaf, b);
      StepTold(j, t, a.steps[0], b.steps[0]);
      if a.steps[0].Extra? {
        assert a.steps == b.steps;
        RootFault(j, t, leaf, a);
        RootFault(j, t, leaf, b);
      } else {
        assert a.steps[..1] == b.steps[..1];
        var at := Walk(j, t, leaf, a.steps[..1]).value;
        FaultBelow(j, t, leaf, a, at.json, at.of, at.leaf);
        FaultBelow(j, t, leaf, b, at.json, at.of, at.leaf);
        DistinctBelow(j, t, leaf, a.steps[..1]);
        MarksTell(at.json, at.of, at.leaf, Inside(a), Inside(b));
        assert a.steps == [a.steps[0]] + Inside(a).steps && b.steps == [b.steps[0]] + Inside(b).steps;
      }
    }
  }

  lemma RootIsOne(j: Json, t: Type, leaf: string, a: Site, b: Site)
    requires IsFault(j, t, leaf, a) && IsFault(j, t, leaf, b) && a.steps == b.steps == []
    ensures a == b
  {
  }

  lemma DistinctBelow(j: Json, t: Type, leaf: string, steps: seq<Step>)
    requires DistinctNames(t) && |steps| == 1 && Walk(j, t, leaf, steps).Some?
    ensures DistinctNames(Walk(j, t, leaf, steps).value.of)
  {
  }

  /** In a body read into a struct, every fault has a path of its own. */
  lemma PathsAreDistinct(j: Json, t: Type, a: Site, b: Site)
    requires t.Struct? && j.Obj? && DistinctNames(t)
    requires a in Found(j, t, "") && b in Found(j, t, "") && PlainSteps(a.steps) && PlainSteps(b.steps)
    ensures Render("", a.steps) == Render("", b.steps) <==> a == b
  {
    hide IsFault, Found, Render, DistinctNames, Opens;
    FoundExactly(j, t, "", a);
    FoundExactly(j, t, "", b);
    if Render("", a.steps) == Render("", b.steps) {
      FromTheTop(j, t, a);
      FromTheTop(j, t, b);
      RootIsMarks(a.steps);
      RootIsMarks(b.steps);
      MarksInjective(a.steps, b.steps);
      MarksTell(j, t, "", a, b);
    }
  }

  lemma FromTheTop(j: Json, t: Type, s: Site)
    requires t.Struct? && j.Obj? && IsFault(j, t, "", s)
    ensures s.steps != [] && !s.steps[0].Index? && (s.steps[0].name != "" || |s.steps| == 1)
  {
    hide Got, Limit, LabelOf, LeafName, Sorted;
    if s.steps != [] { FaultOpens(j, t, "", s); }
  }

  // -------------------------------------------------------------- the request's own type

  function PostingBody(text: string -> Option<Atom>): Type {
    Struct([Field("account", true, Leaf(Quoted, "", text)), Field("amount_minor", true, Leaf(Bare, "0", ReadWhole))])
  }

  /** transactionRequest, for any readers of a string and of a moment. */
  function TransactionRequest(text: string -> Option<Atom>, moment: string -> Option<Atom>): Type {
    Struct([Field("currency", true, Leaf(Quoted, "", text)), Field("description", true, Leaf(Quoted, "", text)),
            Field("postings", true, Slice(PostingBody(text))),
            Field("occurred_at", true, Leaf(Quoted, "0001-01-01T00:00:00Z", moment))])
  }

  lemma {:induction false} CutIsWhole(tag: string)
    requires ',' !in tag
    ensures Cut(tag) == tag
  {
    if tag == "" {
    } else {
      CutIsWhole(tag[1..]);
      assert tag == [tag[0]] + tag[1..];
    }
  }

  lemma PostingNamesAreDistinct(text: string -> Option<Atom>)
    ensures DistinctNames(PostingBody(text))
  {
    hide Cut, ReadWhole;
    CutIsWhole("account");
    CutIsWhole("amount_minor");
    var t := PostingBody(text);
    assert Name(t.fields[0]) == "account" && Name(t.fields[1]) == "amount_minor";
    assert DistinctNames(t.fields[0].of) && DistinctNames(t.fields[1].of);
  }

  /** The endpoint's own request declares no name twice, so its faults' paths are distinct. */
  lemma TransactionNamesAreDistinct(text: string -> Option<Atom>, moment: string -> Option<Atom>)
    ensures DistinctNames(TransactionRequest(text, moment))
    ensures NamesOf(TransactionRequest(text, moment)) == {"currency", "description", "postings", "occurred_at"}
  {
    hide Cut, PostingBody, ReadWhole;
    CutIsWhole("currency");
    CutIsWhole("description");
    CutIsWhole("postings");
    CutIsWhole("occurred_at");
    var t := TransactionRequest(text, moment);
    assert Name(t.fields[0]) == "currency" && Name(t.fields[1]) == "description";
    assert Name(t.fields[2]) == "postings" && Name(t.fields[3]) == "occurred_at";
    PostingNamesAreDistinct(text);
    assert DistinctNames(t.fields[2].of);
  }
}
