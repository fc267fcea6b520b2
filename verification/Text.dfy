/** Text as the ledger orders and checks it: a strict total order on strings, the
    ascending listing of a finite set of strings, and the shapes the schema's CHECK
    constraints ask of a column. */
module Text {

  datatype Option<+T> = None | Some(value: T)

  // ---------------------------------------------------------------- order

  /** `a` sorts before `b`: character by character, a proper prefix first. */
  predicate Less(a: string, b: string) {
    if b == [] then false
    else if a == [] then true
    else a[0] < b[0] || (a[0] == b[0] && Less(a[1..], b[1..]))
  }

  lemma {:induction false} LessIsTotal(a: string, b: string)
    ensures Less(a, b) || a == b || Less(b, a)
    ensures Less(a, b) ==> a != b && !Less(b, a)
  {
    if a == [] || b == [] {
    } else {
      LessIsTotal(a[1..], b[1..]);
      assert a == [a[0]] + a[1..] && b == [b[0]] + b[1..];
    }
  }

  lemma {:induction false} LessIsTransitive(a: string, b: string, c: string)
    requires Less(a, b) && Less(b, c)
    ensures Less(a, c)
  {
    if a == [] || !(a[0] == b[0] == c[0]) {
    } else {
      LessIsTransitive(a[1..], b[1..], c[1..]);
    }
  }

  /** The first place where they differ, or where one of them ends. */
  ghost predicate DiffersAt(a: string, b: string, k: nat) {
    k <= |a| && k < |b| && a[..k] == b[..k] && (k == |a| || a[k] < b[k])
  }

  /** The dictionary's order: decided where the two first differ. */
  lemma {:induction false} LessMeans(a: string, b: string)
    ensures Less(a, b) <==> exists k: nat :: DiffersAt(a, b, k)
  {
    if a == [] || b == [] {
      if b != [] { assert DiffersAt(a, b, 0); }
    } else {
      LessMeans(a[1..], b[1..]);
      if a[0] < b[0] {
        assert DiffersAt(a, b, 0);
      } else if Less(a, b) {
        var k: nat :| DiffersAt(a[1..], b[1..], k);
        assert a[..k + 1] == [a[0]] + a[1..][..k] && b[..k + 1] == [b[0]] + b[1..][..k];
        assert DiffersAt(a, b, k + 1);
      }
      if exists k: nat :: DiffersAt(a, b, k) {
        var k: nat :| DiffersAt(a, b, k);
        if k > 0 {
          assert a[0] == a[..k][0] == b[..k][0] == b[0];
          assert a[1..][..k - 1] == a[..k][1..] && b[1..][..k - 1] == b[..k][1..];
          assert DiffersAt(a[1..], b[1..], k - 1);
        }
      }
    }
  }

  /** Strictly increasing, so without duplicates. */
  ghost predicate Ascending(s: seq<string>) {
    forall i, j :: 0 <= i < j < |s| ==> Less(s[i], s[j])
  }

  predicate IsLeast(x: string, s: set<string>) {
    x in s && forall y | y in s :: y == x || Less(x, y)
  }

  lemma {:induction false} LeastExists(s: set<string>)
    requires s != {}
    ensures exists x :: IsLeast(x, s)
    decreases |s|
  {
    var x :| x in s;
    var rest := s - {x};
    if rest == {} {
      assert s == {x};
      assert IsLeast(x, s);
    } else {
      LeastExists(rest);
      var m :| IsLeast(m, rest);
      LessIsTotal(x, m);
      var least := if Less(m, x) then m else x;
      forall y | y in s && y != least ensures Less(least, y) {
        if y != m && y != x && least == x { LessIsTransitive(x, m, y); }
      }
      assert IsLeast(least, s);
    }
  }

  lemma LeastIsUnique(s: set<string>)
    ensures forall x, y :: IsLeast(x, s) && IsLeast(y, s) ==> x == y
  {
    forall x, y | IsLeast(x, s) && IsLeast(y, s) ensures x == y { LessIsTotal(x, y); }
  }

  function Least(s: set<string>): (x: string)
    requires s != {}
    ensures IsLeast(x, s)
  {
    LeastExists(s);
    LeastIsUnique(s);
    var x :| IsLeast(x, s);
    x
  }

  /** The members of `s`, in order: what ORDER BY over a unique column answers. */
  function Sorted(s: set<string>): (r: seq<string>)
    ensures Ascending(r)
    ensures forall x :: x in r <==> x in s
    ensures |r| == |s|
    decreases |s|
  {
    if s == {} then []
    else
      var x := Least(s);
      var rest := Sorted(s - {x});
      assert forall y :: y in rest ==> Less(x, y);
      [x] + rest
  }

  /** A strictly increasing sequence is the sorted listing of its own members. */
  lemma {:induction false} SortedIsUnique(r: seq<string>, s: set<string>)
    requires Ascending(r)
    requires forall x :: x in r <==> x in s
    ensures r == Sorted(s)
    decreases |r|
  {
    if r == [] {
      assert s == {};
    } else {
      forall y | y in s && y != r[0] ensures Less(r[0], y) {
        var i :| 0 <= i < |r| && r[i] == y;
      }
      assert r[0] in s;
      assert IsLeast(r[0], s);
      LeastIsUnique(s);
      var tail := r[1..];
      forall x | x in tail ensures x in s - {r[0]} {
        var i :| 0 <= i < |tail| && tail[i] == x;
        assert Less(r[0], r[i + 1]);
        LessIsTotal(r[0], x);
      }
      assert r == [r[0]] + tail;
      SortedIsUnique(tail, s - {r[0]});
    }
  }

  // --------------------------------------------------------------- shapes

  predicate Within(c: char, lo: char, hi: char) { lo <= c <= hi }

  /** `^[a-z][a-z0-9_.]{0,63}$` */
  predicate CodeShape(s: string) {
    1 <= |s| <= 64 && Within(s[0], 'a', 'z') &&
    forall i | 1 <= i < |s| ::
      Within(s[i], 'a', 'z') || Within(s[i], '0', '9') || s[i] == '_' || s[i] == '.'
  }

  /** `^[A-Z]{3}$` */
  predicate CurrencyShape(s: string) {
    |s| == 3 && forall i | 0 <= i < 3 :: Within(s[i], 'A', 'Z')
  }

  /** `^[[:graph:]]{16,255}$`, with the character classes of ASCII. */
  predicate KeyShape(s: string) {
    16 <= |s| <= 255 && forall c | c in s :: Within(c, '!', '~')
  }

  predicate IsSpace(c: char) { c == ' ' || Within(c, '\t', '\r') }

  predicate IsControl(c: char) { c < ' ' || c == '\U{007F}' }

  /** Words a person wrote: not blank, no control character, at most `most` characters. */
  predicate WordsShape(s: string, most: nat) {
    |s| <= most && (exists c | c in s :: !IsSpace(c)) && forall c | c in s :: !IsControl(c)
  }

  predicate DescriptionShape(s: string) { WordsShape(s, 500) }

  predicate NameShape(s: string) { WordsShape(s, 100) }
}
