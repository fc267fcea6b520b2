/** The json names an endpoint takes, read off its request type at any depth: a walk of a
    graph of types, in which a struct may reach itself. */
module JsonFields {
  import opened Text
  import Decode

  type Id = nat

  /** A pointer, slice or array has an element; a struct has fields; the rest have neither. */
  datatype Shape = Elem(of: Id) | StructOf(fields: seq<Tagged>) | Other

  datatype Tagged = Tagged(tag: string, of: Id)

  /** The types there are, and how far each is from the end of its element chain. */
  datatype Graph = Graph(shapes: map<Id, Shape>, rank: map<Id, nat>) {
    ghost predicate Valid() {
      && rank.Keys == shapes.Keys
      && (forall t :: t in shapes && shapes[t].Elem? ==> shapes[t].of in shapes && rank[shapes[t].of] < rank[t])
      && (forall t, i ::
           t in shapes && shapes[t].StructOf? && 0 <= i < |shapes[t].fields| ==> shapes[t].fields[i].of in shapes)
    }
  }

  function Name(f: Tagged): string { Decode.Cut(f.tag) }

  predicate Kept(f: Tagged) { Name(f) != "" && Name(f) != "-" }

  /** The type at the end of a chain of elements. */
  ghost function Bottom(g: Graph, t: Id): (b: Id)
    requires g.Valid() && t in g.shapes
    ensures b in g.shapes && !g.shapes[b].Elem?
    decreases g.rank[t]
  {
    if g.shapes[t].Elem? then Bottom(g, g.shapes[t].of) else t
  }

  ghost predicate IsStruct(g: Graph, t: Id) { t in g.shapes && g.shapes[t].StructOf? }

  /** A tagged field of `s`, and the struct at the end of its chain. */
  ghost predicate Leads(g: Graph, s: Id, i: int, b: Id)
    requires g.Valid()
  {
    && KeptAt(g, s, i) && Bottom(g, g.shapes[s].fields[i].of) == b && IsStruct(g, b)
  }

  ghost predicate KeptAt(g: Graph, s: Id, i: int) {
    IsStruct(g, s) && 0 <= i < |g.shapes[s].fields| && Kept(g.shapes[s].fields[i])
  }

  ghost predicate NamedAt(g: Graph, s: Id, i: int, name: string) {
    KeptAt(g, s, i) && Name(g.shapes[s].fields[i]) == name
  }

  ghost predicate Next(g: Graph, s: Id, b: Id)
    requires g.Valid()
  {
    exists i :: Leads(g, s, i, b)
  }

  ghost predicate Names(g: Graph, s: Id, name: string) { exists i :: NamedAt(g, s, i, name) }

  /** Structs, each behind a tagged field of the one before, from the root's own. */
  ghost predicate Path(g: Graph, root: Id, path: seq<Id>)
    requires g.Valid() && root in g.shapes
  {
    && path != [] && path[0] == Bottom(g, root) && IsStruct(g, path[0])
    && forall k :: 1 <= k < |path| ==> Next(g, path[k - 1], path[k])
  }

  ghost predicate EndsAt(g: Graph, root: Id, path: seq<Id>, s: Id)
    requires g.Valid() && root in g.shapes
  {
    Path(g, root, path) && path[|path| - 1] == s
  }

  ghost predicate Reached(g: Graph, root: Id, s: Id)
    requires g.Valid() && root in g.shapes
  {
    exists path :: EndsAt(g, root, path, s)
  }

  // -------------------------------------------------------------- what a walk keeps

  /** The first `n` fields of `s` are dealt with: their names seen, their structs done. */
  ghost predicate Through(g: Graph, s: Id, n: int, seen: set<string>, done: set<Id>)
    requires g.Valid()
  {
    && (forall i, name :: i < n && NamedAt(g, s, i, name) ==> name in seen)
    && (forall i, b :: i < n && Leads(g, s, i, b) ==> b in done)
  }

  ghost predicate Finished(g: Graph, s: Id, seen: set<string>, done: set<Id>)
    requires g.Valid()
  {
    IsStruct(g, s) && Through(g, s, |g.shapes[s].fields|, seen, done)
  }

  ghost predicate AllFinished(g: Graph, among: set<Id>, seen: set<string>, done: set<Id>)
    requires g.Valid()
  {
    forall s :: s in among ==> Finished(g, s, seen, done)
  }

  /** Every struct gained is reached from the root, and every name gained is a name of one. */
  ghost predicate Gained(g: Graph, root: Id, seen0: set<string>, done0: set<Id>, seen: set<string>, done: set<Id>)
    requires g.Valid() && root in g.shapes
  {
    && seen0 <= seen && done0 <= done <= g.shapes.Keys
    && (forall s :: s in done - done0 ==> Reached(g, root, s))
    && (forall name :: name in seen - seen0 ==> NamedIn(g, done - done0, name))
  }

  ghost predicate NamedIn(g: Graph, among: set<Id>, name: string) { exists s :: s in among && Names(g, s, name) }

  lemma ThroughGrows(g: Graph, s: Id, n: int, seen: set<string>, done: set<Id>, seen1: set<string>, done1: set<Id>)
    requires g.Valid() && seen <= seen1 && done <= done1 && Through(g, s, n, seen, done)
    ensures Through(g, s, n, seen1, done1)
  {
    hide Graph.Valid, NamedAt, Leads;
  }

  lemma FinishedGrows(g: Graph, among: set<Id>, seen: set<string>, done: set<Id>, seen1: set<string>, done1: set<Id>)
    requires g.Valid() && seen <= seen1 && done <= done1 && AllFinished(g, among, seen, done)
    ensures AllFinished(g, among, seen1, done1)
  {
    hide Graph.Valid, Through;
    forall s | s in among ensures Finished(g, s, seen1, done1) {
      assert Finished(g, s, seen, done);
      ThroughGrows(g, s, |g.shapes[s].fields|, seen, done, seen1, done1);
    }
  }

  lemma ThroughOne(g: Graph, s: Id, i: nat, seen: set<string>, done: set<Id>)
    requires g.Valid() && IsStruct(g, s) && i < |g.shapes[s].fields| && Through(g, s, i, seen, done)
    requires var f := g.shapes[s].fields[i];
      Kept(f) ==> Name(f) in seen && (IsStruct(g, Bottom(g, f.of)) ==> Bottom(g, f.of) in done)
    ensures Through(g, s, i + 1, seen, done)
  {
    hide Name, Kept, Bottom;
    forall k, b | k < i + 1 && Leads(g, s, k, b) ensures b in done {
      if k == i { assert Kept(g.shapes[s].fields[i]); }
    }
  }

  lemma GainedOn(g: Graph, root: Id, seen0: set<string>, done0: set<Id>,
                 seen1: set<string>, done1: set<Id>, seen2: set<string>, done2: set<Id>)
    requires g.Valid() && root in g.shapes
    requires Gained(g, root, seen0, done0, seen1, done1) && Gained(g, root, seen1, done1, seen2, done2)
    ensures Gained(g, root, seen0, done0, seen2, done2)
  {
    hide Graph.Valid, Reached, Names;
    forall name | name in seen2 - seen0 ensures NamedIn(g, done2 - done0, name) {
      if name in seen1 {
        assert NamedIn(g, done1 - done0, name);
        var s :| s in done1 - done0 && Names(g, s, name);
        assert s in done2 - done0;
      } else {
        assert NamedIn(g, done2 - done1, name);
        var s :| s in done2 - done1 && Names(g, s, name);
        assert s in done2 - done0;
      }
    }
  }

  lemma PathOn(g: Graph, root: Id, path: seq<Id>, s: Id, b: Id)
    requires g.Valid() && root in g.shapes && EndsAt(g, root, path, s) && Next(g, s, b)
    ensures EndsAt(g, root, path + [b], b)
  {
    hide Graph.Valid, Next, IsStruct;
    var on := path + [b];
    forall k | 1 <= k < |on| ensures Next(g, on[k - 1], on[k]) {
      if k < |path| { assert on[k - 1] == path[k - 1] && on[k] == path[k]; }
    }
  }

  /** Where every struct done is finished, nothing is reached that is not done. */
  lemma {:induction false} PathStays(g: Graph, root: Id, path: seq<Id>, seen: set<string>, done: set<Id>)
    requires g.Valid() && root in g.shapes && Path(g, root, path)
    requires path[0] in done && AllFinished(g, done, seen, done)
    ensures path[|path| - 1] in done
    decreases |path|
  {
    hide Graph.Valid, IsStruct, AllFinished, Bottom;
    var n := |path| - 1;
    if n == 0 {
    } else {
      var front := path[..n];
      forall k | 1 <= k < n ensures Next(g, front[k - 1], front[k]) { assert Next(g, path[k - 1], path[k]); }
      PathStays(g, root, front, seen, done);
      NextIsDone(g, path[n - 1], path[n], seen, done);
    }
  }

  lemma NextIsDone(g: Graph, s: Id, b: Id, seen: set<string>, done: set<Id>)
    requires g.Valid() && s in done && AllFinished(g, done, seen, done) && Next(g, s, b)
    ensures b in done
  {
    hide Graph.Valid, Bottom, Kept;
    var i :| Leads(g, s, i, b);
    assert Finished(g, s, seen, done);
  }

  // ----------------------------------------------------------------------- the walk

  class Walk {
    const g: Graph
    var seen: set<string>
    var done: set<Id>

    constructor (g: Graph)
      ensures this.g == g && seen == {} && done == {}
    {
      this.g := g;
      seen, done := {}, {};
    }

    /** `before` is the way to the struct whose field `start` is, or empty at the root. */
    method Visit(start: Id, ghost root: Id, ghost before: seq<Id>)
      requires g.Valid() && root in g.shapes && start in g.shapes && done <= g.shapes.Keys
      requires var b := Bottom(g, start); IsStruct(g, b) ==> EndsAt(g, root, before + [b], b)
      modifies this
      ensures Gained(g, root, old(seen), old(done), seen, done)
      ensures IsStruct(g, Bottom(g, start)) ==> Bottom(g, start) in done
      ensures AllFinished(g, done - old(done), seen, done)
      decreases |g.shapes.Keys - done|, 0
    {
      hide Reached, EndsAt, Finished, Through, NamedIn;
      var t := Unwrapped(start);
      if !g.shapes[t].StructOf? || t in done {
        return;
      }
      assert Reached(g, root, t) by { IsReached(g, root, before + [t], t); }
      done := done + {t};
      ghost var size := |g.shapes.Keys - old(done)|;
      assert g.shapes.Keys - done == g.shapes.Keys - old(done) - {t};
      assert Through(g, t, 0, seen, done) by { NothingThrough(g, t, seen, done); }
      for i := 0 to |g.shapes[t].fields|
        invariant Gained(g, root, old(seen), old(done), seen, done)
        invariant t in done && |g.shapes.Keys - done| < size
        invariant Through(g, t, i, seen, done)
        invariant AllFinished(g, done - old(done) - {t}, seen, done)
      {
        ghost var seen1, done1 := seen, done;
        ghost var among := done - old(done) - {t};
        Field(t, i, root, before + [t]);
        OwnIsGained(g, root, t, i, old(seen), old(done), seen1, done1);
        GainedOn(g, root, old(seen), old(done), seen1 + Own(g, t, i), done1, seen, done);
        ThroughGrows(g, t, i, seen1, done1, seen, done);
        FinishedGrows(g, among, seen1, done1, seen, done);
        assert done - old(done) - {t} == among + (done - done1);
        Fewer(g.shapes.Keys, done1, done);
      }
      IsFinished(g, t, seen, done);
    }

    method Unwrapped(start: Id) returns (t: Id)
      requires g.Valid() && start in g.shapes
      ensures t == Bottom(g, start)
    {
      t := start;
      while g.shapes[t].Elem?
        invariant t in g.shapes && Bottom(g, t) == Bottom(g, start)
        decreases g.rank[t]
      {
        t := g.shapes[t].of;
      }
    }

    /** One field of `t`: its name, and what lies behind it. */
    method Field(t: Id, i: nat, ghost root: Id, ghost path: seq<Id>)
      requires g.Valid() && root in g.shapes && done <= g.shapes.Keys
      requires IsStruct(g, t) && i < |g.shapes[t].fields| && EndsAt(g, root, path, t)
      requires Through(g, t, i, seen, done)
      modifies this
      ensures Gained(g, root, old(seen) + Own(g, t, i), old(done), seen, done)
      ensures Through(g, t, i + 1, seen, done)
      ensures AllFinished(g, done - old(done), seen, done)
      decreases |g.shapes.Keys - done|, 1
    {
      hide Reached, EndsAt, Finished, NamedIn;
      var f := g.shapes[t].fields[i];
      ghost var seen0, done0 := seen, done;
      if !Kept(f) {
        ThroughOne(g, t, i, seen, done);
        return;
      }
      seen := seen + {Name(f)};
      if IsStruct(g, Bottom(g, f.of)) {
        assert Leads(g, t, i, Bottom(g, f.of));
        PathOn(g, root, path, t, Bottom(g, f.of));
      }
      Visit(f.of, root, path);
      ThroughGrows(g, t, i, seen0, done0, seen, done);
      ThroughOne(g, t, i, seen, done);
    }
  }

  ghost function Own(g: Graph, t: Id, i: int): set<string> {
    if KeptAt(g, t, i) then {Name(g.shapes[t].fields[i])} else {}
  }

  lemma OwnIsGained(g: Graph, root: Id, t: Id, i: int, seen0: set<string>, done0: set<Id>, seen: set<string>,
      done: set<Id>)
    requires g.Valid() && root in g.shapes && Gained(g, root, seen0, done0, seen, done) && t in done - done0
    ensures Gained(g, root, seen0, done0, seen + Own(g, t, i), done)
  {
    hide Graph.Valid, Reached;
    forall name | name in Own(g, t, i) ensures NamedIn(g, done - done0, name) {
      assert NamedAt(g, t, i, name);
      assert Names(g, t, name);
    }
  }

  lemma IsReached(g: Graph, root: Id, path: seq<Id>, s: Id)
    requires g.Valid() && root in g.shapes && EndsAt(g, root, path, s)
    ensures Reached(g, root, s)
  {
  }

  lemma NothingThrough(g: Graph, s: Id, seen: set<string>, done: set<Id>)
    requires g.Valid()
    ensures Through(g, s, 0, seen, done)
  {
  }

  lemma IsFinished(g: Graph, s: Id, seen: set<string>, done: set<Id>)
    requires g.Valid() && IsStruct(g, s) && Through(g, s, |g.shapes[s].fields|, seen, done)
    ensures Finished(g, s, seen, done)
  {
  }

  lemma Fewer(all: set<Id>, few: set<Id>, many: set<Id>)
    requires few <= many
    ensures |all - many| <= |all - few|
  {
    assert all - few == (all - many) + ((all - few) - (all - many));
    assert (all - many) !! ((all - few) - (all - many));
  }

  // ------------------------------------------------------------- every name, and no other

  /** A name behind the root: a tagged field of a struct reached through tagged fields. */
  ghost predicate Behind(g: Graph, root: Id, name: string)
    requires g.Valid() && root in g.shapes
  {
    exists s :: Reached(g, root, s) && Names(g, s, name)
  }

  /** The walk ends on any graph of types, and lists exactly the names reachable through
      tagged fields, in order, each once. */
  method JsonFields(g: Graph, root: Id) returns (out: seq<string>)
    requires g.Valid() && root in g.shapes
    ensures Ascending(out)
    ensures forall name :: name in out <==> Behind(g, root, name)
  {
    hide Reached, Graph.Valid, Names, Finished, IsStruct, Bottom;
    var walk := new Walk(g);
    if IsStruct(g, Bottom(g, root)) { AtRoot(g, root); }
    walk.Visit(root, root, []);
    out := Sorted(walk.seen);
    assert walk.done - {} == walk.done;
    WalkIsComplete(g, root, walk.seen, walk.done);
  }

  lemma AtRoot(g: Graph, root: Id)
    requires g.Valid() && root in g.shapes && IsStruct(g, Bottom(g, root))
    ensures EndsAt(g, root, [] + [Bottom(g, root)], Bottom(g, root))
  {
  }

  lemma WalkIsComplete(g: Graph, root: Id, seen: set<string>, done: set<Id>)
    requires g.Valid() && root in g.shapes
    requires Gained(g, root, {}, {}, seen, done) && AllFinished(g, done, seen, done)
    requires IsStruct(g, Bottom(g, root)) ==> Bottom(g, root) in done
    ensures forall name :: name in seen <==> Behind(g, root, name)
  {
    hide Graph.Valid, AllFinished, Bottom, Names;
    forall s | Reached(g, root, s) ensures s in done {
      var path :| EndsAt(g, root, path, s);
      PathStays(g, root, path, seen, done);
    }
    forall s, name | s in done && Names(g, s, name) ensures name in seen { NamesAreSeen(g, s, name, seen, done); }
    forall name | name in seen ensures Behind(g, root, name) {
      assert name in seen - {} && done - {} == done;
      assert NamedIn(g, done - {}, name);
    }
  }

  lemma NamesAreSeen(g: Graph, s: Id, name: string, seen: set<string>, done: set<Id>)
    requires g.Valid() && s in done && AllFinished(g, done, seen, done) && Names(g, s, name)
    ensures name in seen
  {
    hide Graph.Valid, Name, Kept;
    var i :| NamedAt(g, s, i, name);
    assert Finished(g, s, seen, done);
  }

  // ------------------------------------------------------ where an element chain ends

  ghost predicate Closed(shapes: map<Id, Shape>) {
    && (forall t :: t in shapes && shapes[t].Elem? ==> shapes[t].of in shapes)
    && (forall t, i ::
         t in shapes && shapes[t].StructOf? && 0 <= i < |shapes[t].fields| ==> shapes[t].fields[i].of in shapes)
  }

  /** The type `n` elements down from `t`, or where the chain ends before. */
  ghost function Along(shapes: map<Id, Shape>, t: Id, n: nat): (u: Id)
    requires Closed(shapes) && t in shapes
    ensures u in shapes
    decreases n
  {
    if n == 0 || !shapes[t].Elem? then t else Along(shapes, shapes[t].of, n - 1)
  }

  ghost predicate EndsBy(shapes: map<Id, Shape>, t: Id, n: nat)
    requires Closed(shapes) && t in shapes
  {
    !shapes[Along(shapes, t, n)].Elem?
  }

  /** The loop over a type's elements comes to an end. */
  ghost predicate Ends(shapes: map<Id, Shape>, t: Id)
    requires Closed(shapes) && t in shapes
  {
    exists n: nat :: EndsBy(shapes, t, n)
  }

  ghost function Depth(shapes: map<Id, Shape>, t: Id, n: nat): nat
    requires Closed(shapes) && t in shapes && EndsBy(shapes, t, n)
    decreases n
  {
    if !shapes[t].Elem? then 0 else 1 + Depth(shapes, shapes[t].of, n - 1)
  }

  lemma {:induction false} DepthIsOne(shapes: map<Id, Shape>, t: Id, m: nat, n: nat)
    requires Closed(shapes) && t in shapes && EndsBy(shapes, t, m) && EndsBy(shapes, t, n)
    ensures Depth(shapes, t, m) == Depth(shapes, t, n)
    decreases m
  {
    if !shapes[t].Elem? {
    } else {
      DepthIsOne(shapes, shapes[t].of, m - 1, n - 1);
    }
  }

  ghost function Steps(shapes: map<Id, Shape>, t: Id): (n: nat)
    requires Closed(shapes) && t in shapes && Ends(shapes, t)
    ensures EndsBy(shapes, t, n)
  {
    var n: nat :| EndsBy(shapes, t, n);
    n
  }

  predicate Ranks(shapes: map<Id, Shape>, rank: map<Id, nat>) {
    && rank.Keys == shapes.Keys
    && forall t | t in shapes && shapes[t].Elem? :: shapes[t].of in shapes && rank[shapes[t].of] < rank[t]
  }

  lemma {:induction false} RankedEnds(shapes: map<Id, Shape>, rank: map<Id, nat>, t: Id)
    requires Closed(shapes) && Ranks(shapes, rank) && t in shapes
    ensures Ends(shapes, t)
    decreases rank[t]
  {
    if !shapes[t].Elem? {
      assert EndsBy(shapes, t, 0);
    } else {
      RankedEnds(shapes, rank, shapes[t].of);
      var n := Steps(shapes, shapes[t].of);
      assert EndsBy(shapes, t, n + 1);
    }
  }

  /** One element down, the end is one step nearer. */
  lemma DepthFalls(shapes: map<Id, Shape>, t: Id)
    requires Closed(shapes) && t in shapes && shapes[t].Elem? && Ends(shapes, t)
    ensures Ends(shapes, shapes[t].of)
    ensures Depth(shapes, t, Steps(shapes, t)) == 1 + Depth(shapes, shapes[t].of, Steps(shapes, shapes[t].of))
  {
    hide Steps;
    var n := Steps(shapes, t);
    assert n > 0;
    assert EndsBy(shapes, shapes[t].of, n - 1);
    DepthIsOne(shapes, shapes[t].of, n - 1, Steps(shapes, shapes[t].of));
  }

  lemma EndedIsRanked(shapes: map<Id, Shape>)
    requires Closed(shapes) && forall t :: t in shapes ==> Ends(shapes, t)
    ensures exists rank :: Ranks(shapes, rank)
  {
    hide Steps, Depth, Ends;
    var rank := map t | t in shapes :: Depth(shapes, t, Steps(shapes, t));
    forall t | t in shapes && shapes[t].Elem? ensures rank[shapes[t].of] < rank[t] {
      DepthFalls(shapes, t);
    }
    assert Ranks(shapes, rank);
  }

  /** The walk's own condition is that every element chain ends: there is a rank for it
      exactly then. */
  lemma RankedExactlyWhereChainsEnd(shapes: map<Id, Shape>)
    requires Closed(shapes)
    ensures (exists rank :: Ranks(shapes, rank)) <==> forall t :: t in shapes ==> Ends(shapes, t)
  {
    hide Closed, Ends, Ranks;
    if forall t :: t in shapes ==> Ends(shapes, t) { EndedIsRanked(shapes); }
    if exists rank :: Ranks(shapes, rank) {
      var rank :| Ranks(shapes, rank);
      forall t | t in shapes ensures Ends(shapes, t) { RankedEnds(shapes, rank, t); }
    }
  }

  /** And there are types where one does not: a slice of itself is its own element for ever. */
  lemma {:induction false} SliceOfItselfNeverEnds(shapes: map<Id, Shape>, t: Id, n: nat)
    requires Closed(shapes) && t in shapes && shapes[t] == Elem(t)
    ensures Along(shapes, t, n) == t && !EndsBy(shapes, t, n)
  {
    if n == 0 {
    } else {
      SliceOfItselfNeverEnds(shapes, t, n - 1);
    }
  }

  // ------------------------------------------------------------- a name, by its tag

  /** A field goes by the name its tag starts with, and goes by none where that is empty or a dash. */
  lemma NamedByItsTag(g: Graph, s: Id, i: int, name: string)
    ensures NamedAt(g, s, i, name) <==>
      && IsStruct(g, s) && 0 <= i < |g.shapes[s].fields| && name != "" && name != "-"
      && Decode.TagNames(g.shapes[s].fields[i].tag, name)
    ensures KeptAt(g, s, i) <==> exists word :: NamedAt(g, s, i, word)
  {
    hide Decode.Cut, Decode.TagNames;
    if IsStruct(g, s) && 0 <= i < |g.shapes[s].fields| {
      Decode.CutIsTheName(g.shapes[s].fields[i].tag, name);
      if KeptAt(g, s, i) { assert NamedAt(g, s, i, Name(g.shapes[s].fields[i])); }
    }
  }

  // -------------------------------------------------- what the decoder takes, and what not

  function TagsOf(fields: seq<Decode.Field>): seq<Tagged> {
    if fields == [] then [] else TagsOf(fields[..|fields| - 1]) + [Tagged(fields[|fields| - 1].tag, 1)]
  }

  lemma {:induction false} TagsAt(fields: seq<Decode.Field>)
    ensures |TagsOf(fields)| == |fields|
    ensures forall i :: 0 <= i < |fields| ==> TagsOf(fields)[i] == Tagged(fields[i].tag, 1)
  {
    if fields == [] {
    } else {
      TagsAt(fields[..|fields| - 1]);
    }
  }

  /** A struct of leaves, as the walk sees it. */
  function FlatGraph(fields: seq<Decode.Field>): Graph {
    Graph(map[0 := StructOf(TagsOf(fields)), 1 := Other], map[0 := 0, 1 := 0])
  }

  /** A field tagged with the name that is exported, or that is not. */
  ghost predicate TaggedAs(fields: seq<Decode.Field>, name: string, exported: bool) {
    exists i :: 0 <= i < |fields| && Decode.Name(fields[i]) == name && fields[i].exported == exported
  }

  lemma FlatNames(fields: seq<Decode.Field>, s: Id, name: string)
    requires name != "" && name != "-"
    ensures Names(FlatGraph(fields), s, name) <==>
      s == 0 && (TaggedAs(fields, name, false) || TaggedAs(fields, name, true))
  {
    hide Decode.Cut;
    TagsAt(fields);
    if s == 0 && (TaggedAs(fields, name, false) || TaggedAs(fields, name, true)) {
      var i :| 0 <= i < |fields| && Decode.Name(fields[i]) == name;
      assert NamedAt(FlatGraph(fields), 0, i, name);
    }
    if Names(FlatGraph(fields), s, name) {
      var i :| NamedAt(FlatGraph(fields), s, i, name);
      assert Decode.Name(fields[i]) == name;
    }
  }

  lemma TakenNames(fields: seq<Decode.Field>, name: string)
    requires name != "" && name != "-"
    ensures name in Decode.NamesOf(Decode.Struct(fields)) <==> TaggedAs(fields, name, true)
  {
    hide Decode.Cut;
  }

  /** A name of a struct of leaves is listed and not taken exactly where a field tagged with
      it is unexported and none is exported: the walk does not ask, and the decoder does. */
  lemma ListedAndNotTaken(fields: seq<Decode.Field>, name: string)
    requires name != "" && name != "-"
    ensures FlatGraph(fields).Valid()
    ensures Behind(FlatGraph(fields), 0, name) && name !in Decode.NamesOf(Decode.Struct(fields)) <==>
      TaggedAs(fields, name, false) && !TaggedAs(fields, name, true)
  {
    hide Reached, Names, TaggedAs, Graph.Valid, FlatGraph, Decode.NamesOf;
    FlatIsReached(fields);
    TakenNames(fields, name);
    forall s ensures Names(FlatGraph(fields), s, name) <==>
      s == 0 && (TaggedAs(fields, name, false) || TaggedAs(fields, name, true))
    {
      FlatNames(fields, s, name);
    }
    assert 0 in FlatGraph(fields).shapes by { FlatIsReached(fields); }
  }

  lemma FlatIsReached(fields: seq<Decode.Field>)
    ensures FlatGraph(fields).Valid() && 0 in FlatGraph(fields).shapes && Reached(FlatGraph(fields), 0, 0)
  {
    TagsAt(fields);
    assert EndsAt(FlatGraph(fields), 0, [0], 0);
  }
}
