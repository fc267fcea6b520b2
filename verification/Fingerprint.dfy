/** The fingerprint of a request: the decoded request written out as canonical json, and a
    digest of that. The writing can be told back, so two requests are fingerprinted alike
    exactly when they decode alike. */
module Fingerprint {
  import opened Text
  import opened Decode
  import opened Faults
  import Book
  import Paging
  import Paths
  import Reordered
  import Simple

  // ----------------------------------------------------------------- what is written

  /** Written as \uXXXX: control characters, what json quotes with, and what html would. */
  predicate IsEscaped(c: char) {
    c < ' ' || c == '"' || c == '\\' || c == '<' || c == '>' || c == '&' || c == '\U{2028}' || c == '\U{2029}'
  }

  function HexDigit(d: nat): char
    requires d < 16
  {
    if d < 10 then '0' + d as char else 'a' + (d - 10) as char
  }

  function Hex(n: nat): (s: string)
    requires n < 0x1_0000
    ensures |s| == 4
  {
    [HexDigit(n / 0x1000), HexDigit(n / 0x100 % 0x10), HexDigit(n / 0x10 % 0x10), HexDigit(n % 0x10)]
  }

  /** Each writer below is followed by the text that comes after. */
  function Escaped(s: string, rest: string): string {
    if s == "" then rest
    else if IsEscaped(s[0]) then "\\u" + Hex(s[0] as nat) + Escaped(s[1..], rest)
    else [s[0]] + Escaped(s[1..], rest)
  }

  function QuotedText(s: string, rest: string): string { "\"" + Escaped(s, "\"" + rest) }

  /** What reading leaves: every field a request does not take is at its zero. */
  ghost predicate Shaped(v: Value, t: Type)
    decreases t
  {
    match t
    case Leaf(writing, _, _) => v.AtomOf? && (writing.Bare? ==> IsNumber(v.atom))
    case Slice(elem) => v.Unset? || (v.Elements? && forall i :: 0 <= i < |v.items| ==> Shaped(v.items[i], elem))
    case Struct(fields) => v.Fields? && |v.fields| == |fields| && forall i :: 0 <= i < |fields| ==>
      Shaped(v.fields[i], fields[i].of) && (!Taken(fields[i]) ==> v.fields[i] == Zero(fields[i].of))
  }

  predicate IsNumber(s: string) { s != "" && forall c | c in s :: Within(c, '0', '9') || c == '-' }

  /** json.Marshal, its fields in declared order. */
  ghost function Written(v: Value, t: Type, rest: string): string
    requires Shaped(v, t)
    decreases t, 1, 0
  {
    match t
    case Leaf(writing, _, _) => if writing.Bare? then v.atom + rest else QuotedText(v.atom, rest)
    case Slice(_) => if v.Unset? then "null" + rest else "[" + ItemsFrom(v.items, t, 0, rest)
    case Struct(_) => "{" + FieldsFrom(v, t, 0, rest)
  }

  ghost function ItemsFrom(items: seq<Value>, t: Type, k: nat, rest: string): string
    requires t.Slice? && k <= |items| && forall i :: 0 <= i < |items| ==> Shaped(items[i], t.elem)
    decreases t, 0, |items| - k
  {
    if k == |items| then "]" + rest
    else (if k > 0 then "," else "") + Written(items[k], t.elem, ItemsFrom(items, t, k + 1, rest))
  }

  ghost function FieldsFrom(v: Value, t: Type, k: nat, rest: string): string
    requires t.Struct? && Shaped(v, t) && k <= |t.fields|
    decreases t, 0, |t.fields| - k
  {
    if k == |t.fields| then "}" + rest
    else if !Taken(t.fields[k]) then FieldsFrom(v, t, k + 1, rest)
    else
      (if exists i :: 0 <= i < k && Taken(t.fields[i]) then "," else "") +
      QuotedText(Name(t.fields[k]), ":" + Written(v.fields[k], t.fields[k].of, FieldsFrom(v, t, k + 1, rest)))
  }

  ghost function Marshal(v: Value, t: Type): string
    requires Shaped(v, t)
  {
    Written(v, t, "")
  }

  // ------------------------------------------------------------------ and told back

  const STOPS: set<char> := {',', '}', ']'}

  lemma HexDigitTold(c: nat, d: nat)
    requires c < 16 && d < 16 && HexDigit(c) == HexDigit(d)
    ensures c == d
  {
  }

  lemma HexDigits(n: nat)
    requires n < 0x1_0000
    ensures n == n / 0x1000 * 0x1000 + n / 0x100 % 0x10 * 0x100 + n / 0x10 % 0x10 * 0x10 + n % 0x10
  {
    assert n / 0x100 / 0x10 == n / 0x1000 && n / 0x10 / 0x10 == n / 0x100;
  }

  lemma HexTold(m: nat, n: nat)
    requires m < 0x1_0000 && n < 0x1_0000 && Hex(m) == Hex(n)
    ensures m == n
  {
    hide HexDigit;
    HexDigits(m);
    HexDigits(n);
    SameDigits(m, n);
  }

  lemma SameDigits(m: nat, n: nat)
    requires m < 0x1_0000 && n < 0x1_0000 && Hex(m) == Hex(n)
    ensures m / 0x1000 == n / 0x1000 && m / 0x100 % 0x10 == n / 0x100 % 0x10
    ensures m / 0x10 % 0x10 == n / 0x10 % 0x10 && m % 0x10 == n % 0x10
  {
    hide HexDigit;
    var a, b := Hex(m), Hex(n);
    assert a[0] == b[0] && a[1] == b[1] && a[2] == b[2] && a[3] == b[3];
    HexDigitTold(m / 0x1000, n / 0x1000);
    HexDigitTold(m / 0x100 % 0x10, n / 0x100 % 0x10);
    HexDigitTold(m / 0x10 % 0x10, n / 0x10 % 0x10);
    HexDigitTold(m % 0x10, n % 0x10);
  }

  lemma EscapeTold(c: char, x: string, d: char, y: string)
    requires IsEscaped(c) && IsEscaped(d) && "\\u" + Hex(c as nat) + x == "\\u" + Hex(d as nat) + y
    ensures c == d && x == y
  {
    hide Hex;
    var m, n := Hex(c as nat), Hex(d as nat);
    assert ("\\u" + m + x)[2..6] == m && ("\\u" + n + y)[2..6] == n;
    assert ("\\u" + m + x)[6..] == x && ("\\u" + n + y)[6..] == y;
    HexTold(c as nat, d as nat);
  }

  /** Escaped text has no quote of its own. */
  lemma EscapedStarts(a: string, x: string)
    ensures var s := Escaped(a, "\"" + x);
      s != "" && (a == "" <==> s[0] == '"') && (a != "" && !IsEscaped(a[0]) ==> s[0] == a[0])
      && (a != "" && IsEscaped(a[0]) ==> s[0] == '\\')
  {
  }

  /** A quoted text ends at its first quote. */
  lemma {:induction false} TextTold(a: string, x: string, b: string, y: string)
    requires Escaped(a, "\"" + x) == Escaped(b, "\"" + y)
    ensures a == b && x == y
    decreases |a|
  {
    hide Hex;
    var s, r := Escaped(a, "\"" + x), Escaped(b, "\"" + y);
    EscapedStarts(a, x);
    EscapedStarts(b, y);
    if a == "" {
      assert ("\"" + x)[1..] == x && ("\"" + y)[1..] == y;
    } else {
      if IsEscaped(a[0]) {
        EscapeTold(a[0], Escaped(a[1..], "\"" + x), b[0], Escaped(b[1..], "\"" + y));
      } else {
        assert s[1..] == Escaped(a[1..], "\"" + x) && r[1..] == Escaped(b[1..], "\"" + y);
      }
      TextTold(a[1..], x, b[1..], y);
      assert a == [a[0]] + a[1..] && b == [b[0]] + b[1..];
    }
  }

  lemma QuoteTold(a: string, x: string, b: string, y: string)
    requires QuotedText(a, x) == QuotedText(b, y)
    ensures a == b && x == y
  {
    assert QuotedText(a, x)[1..] == Escaped(a, "\"" + x) && QuotedText(b, y)[1..] == Escaped(b, "\"" + y);
    TextTold(a, x, b, y);
  }

  lemma NumberTold(a: string, x: string, b: string, y: string)
    requires IsNumber(a) && IsNumber(b) && Paths.Stopped(x, STOPS) && Paths.Stopped(y, STOPS) && a + x == b + y
    ensures a == b && x == y
  {
    Paths.FirstStop(a, x, b, y, STOPS);
  }

  /** No value starts the way an array or an object ends. */
  lemma StartsInside(v: Value, t: Type, rest: string)
    requires Shaped(v, t)
    ensures var s := Written(v, t, rest); s != "" && s[0] !in STOPS
    ensures t.Slice? ==> Written(v, t, rest)[0] == if v.Unset? then 'n' else '['
  {
    if t.Leaf? && t.writing.Bare? { assert v.atom[0] in v.atom && (v.atom + rest)[0] == v.atom[0]; }
  }

  lemma ItemsStop(items: seq<Value>, t: Type, k: nat, rest: string)
    requires t.Slice? && 0 < k <= |items| && forall i :: 0 <= i < |items| ==> Shaped(items[i], t.elem)
    ensures Paths.Stopped(ItemsFrom(items, t, k, rest), STOPS)
  {
  }

  lemma {:induction false} FieldsStop(v: Value, t: Type, k: nat, rest: string)
    requires t.Struct? && Shaped(v, t) && k <= |t.fields| && exists i :: 0 <= i < k && Taken(t.fields[i])
    ensures Paths.Stopped(FieldsFrom(v, t, k, rest), STOPS)
    decreases |t.fields| - k
  {
    hide QuotedText, Taken;
    if k == |t.fields| || Taken(t.fields[k]) {
    } else {
      FieldsStop(v, t, k + 1, rest);
    }
  }

  /** What is written tells the value, and what follows it. */
  lemma {:induction false} WrittenTold(v: Value, x: string, w: Value, y: string, t: Type)
    requires Shaped(v, t) && Shaped(w, t) && Paths.Stopped(x, STOPS) && Paths.Stopped(y, STOPS)
    requires Written(v, t, x) == Written(w, t, y)
    ensures v == w && x == y
    decreases t, 1, 0
  {
    hide QuotedText, ItemsFrom, FieldsFrom, Paths.Stopped;
    match t
    case Leaf(writing, _, _) =>
      if writing.Bare? { NumberTold(v.atom, x, w.atom, y); } else { QuoteTold(v.atom, x, w.atom, y); }
    case Slice(_) =>
      StartsInside(v, t, x);
      StartsInside(w, t, y);
      if v.Unset? {
        assert ("null" + x)[4..] == x && ("null" + y)[4..] == y;
      } else {
        assert Written(v, t, x)[1..] == ItemsFrom(v.items, t, 0, x);
        assert Written(w, t, y)[1..] == ItemsFrom(w.items, t, 0, y);
        ItemsTold(v.items, x, w.items, y, t, 0);
      }
    case Struct(_) =>
      assert Written(v, t, x)[1..] == FieldsFrom(v, t, 0, x);
      assert Written(w, t, y)[1..] == FieldsFrom(w, t, 0, y);
      FieldsTold(v, x, w, y, t, 0);
  }

  lemma {:induction false} ItemsTold(a: seq<Value>, x: string, b: seq<Value>, y: string, t: Type, k: nat)
    requires t.Slice? && k <= |a| && k <= |b| && a[..k] == b[..k]
    requires forall i :: 0 <= i < |a| ==> Shaped(a[i], t.elem)
    requires forall i :: 0 <= i < |b| ==> Shaped(b[i], t.elem)
    requires Paths.Stopped(x, STOPS) && Paths.Stopped(y, STOPS) && ItemsFrom(a, t, k, x) == ItemsFrom(b, t, k, y)
    ensures a == b && x == y
    decreases t, 0, |a| - k
  {
    hide Written, Shaped, Paths.Stopped;
    if k < |a| { StartsInside(a[k], t.elem, ItemsFrom(a, t, k + 1, x)); }
    if k < |b| { StartsInside(b[k], t.elem, ItemsFrom(b, t, k + 1, y)); }
    EndsTogether(a, x, b, y, t, k);
    if k == |a| {
      assert ("]" + x)[1..] == x && ("]" + y)[1..] == y;
      assert a == a[..k] && b == b[..k];
    } else {
      var s, r := ItemsFrom(a, t, k + 1, x), ItemsFrom(b, t, k + 1, y);
      ItemsStop(a, t, k + 1, x);
      ItemsStop(b, t, k + 1, y);
      var comma := if k > 0 then "," else "";
      assert (comma + Written(a[k], t.elem, s))[|comma|..] == Written(a[k], t.elem, s);
      assert (comma + Written(b[k], t.elem, r))[|comma|..] == Written(b[k], t.elem, r);
      WrittenTold(a[k], s, b[k], r, t.elem);
      assert a[..k + 1] == a[..k] + [a[k]] && b[..k + 1] == b[..k] + [b[k]];
      ItemsTold(a, x, b, y, t, k + 1);
    }
  }

  /** Neither array is at its end before the other. */
  lemma EndsTogether(a: seq<Value>, x: string, b: seq<Value>, y: string, t: Type, k: nat)
    requires t.Slice? && k <= |a| && k <= |b|
    requires forall i :: 0 <= i < |a| ==> Shaped(a[i], t.elem)
    requires forall i :: 0 <= i < |b| ==> Shaped(b[i], t.elem)
    requires ItemsFrom(a, t, k, x) == ItemsFrom(b, t, k, y)
    ensures k == |a| <==> k == |b|
  {
    hide Written, Shaped;
    var s, r := ItemsFrom(a, t, k, x), ItemsFrom(b, t, k, y);
    if k == |a| { assert s[0] == ']'; }
    if k == |b| { assert r[0] == ']'; }
    if k < |a| {
      StartsInside(a[k], t.elem, ItemsFrom(a, t, k + 1, x));
      assert s[0] != ']';
    }
    if k < |b| {
      StartsInside(b[k], t.elem, ItemsFrom(b, t, k + 1, y));
      assert r[0] != ']';
    }
  }

  lemma {:induction false} FieldsTold(v: Value, x: string, w: Value, y: string, t: Type, k: nat)
    requires t.Struct? && Shaped(v, t) && Shaped(w, t) && k <= |t.fields| && v.fields[..k] == w.fields[..k]
    requires Paths.Stopped(x, STOPS) && Paths.Stopped(y, STOPS) && FieldsFrom(v, t, k, x) == FieldsFrom(w, t, k, y)
    ensures v == w && x == y
    decreases t, 0, |t.fields| - k
  {
    hide Written, QuotedText, Paths.Stopped, Taken, Name, Zero;
    if k == |t.fields| {
      assert ("}" + x)[1..] == x && ("}" + y)[1..] == y;
      assert v.fields == v.fields[..k] && w.fields == w.fields[..k];
    } else {
      if Taken(t.fields[k]) { FieldTold(v, x, w, y, t, k); }
      assert v.fields[..k + 1] == v.fields[..k] + [v.fields[k]] && w.fields[..k + 1] == w.fields[..k] + [w.fields[k]];
      FieldsTold(v, x, w, y, t, k + 1);
    }
  }

  /** One field: its name, and its value. */
  lemma {:induction false} FieldTold(v: Value, x: string, w: Value, y: string, t: Type, k: nat)
    requires t.Struct? && Shaped(v, t) && Shaped(w, t) && k < |t.fields| && Taken(t.fields[k])
    requires FieldsFrom(v, t, k, x) == FieldsFrom(w, t, k, y)
    ensures v.fields[k] == w.fields[k] && FieldsFrom(v, t, k + 1, x) == FieldsFrom(w, t, k + 1, y)
    decreases t, 0, 0
  {
    hide Written, QuotedText, Name, Taken;
    var f, s, r := t.fields[k], FieldsFrom(v, t, k + 1, x), FieldsFrom(w, t, k + 1, y);
    var one, two := ":" + Written(v.fields[k], f.of, s), ":" + Written(w.fields[k], f.of, r);
    var comma := if exists i :: 0 <= i < k && Taken(t.fields[i]) then "," else "";
    assert (comma + QuotedText(Name(f), one))[|comma|..] == QuotedText(Name(f), one);
    assert (comma + QuotedText(Name(f), two))[|comma|..] == QuotedText(Name(f), two);
    QuoteTold(Name(f), one, Name(f), two);
    assert one[1..] == Written(v.fields[k], f.of, s) && two[1..] == Written(w.fields[k], f.of, r);
    FieldsStop(v, t, k + 1, x);
    FieldsStop(w, t, k + 1, y);
    WrittenTold(v.fields[k], s, w.fields[k], r, f.of);
  }

  /** Canonical json is injective on what a request decodes to. */
  lemma MarshalInjective(v: Value, w: Value, t: Type)
    requires Shaped(v, t) && Shaped(w, t)
    ensures Marshal(v, t) == Marshal(w, t) <==> v == w
  {
    if Marshal(v, t) == Marshal(w, t) { WrittenTold(v, "", w, "", t); }
  }

  // ------------------------------------------------------------------------- claims

  /** Every leaf written bare reads into the text of a number. */
  ghost predicate WritesNumbers(t: Type) {
    match t
    case Leaf(writing, zero, read) =>
      writing.Bare? ==> IsNumber(zero) && forall text: string :: read(text).Some? ==> IsNumber(read(text).value)
    case Slice(elem) => WritesNumbers(elem)
    case Struct(fields) => forall i :: 0 <= i < |fields| ==> WritesNumbers(fields[i].of)
  }

  lemma {:induction false} ZeroIsShaped(t: Type)
    requires WritesNumbers(t)
    ensures Shaped(Zero(t), t)
    decreases t
  {
    if !t.Struct? {
    } else {
      forall i | 0 <= i < |t.fields| ensures Shaped(Zero(t.fields[i].of), t.fields[i].of) {
        ZeroIsShaped(t.fields[i].of);
      }
    }
  }

  /** Whatever a body holds, what is read of it can be written. */
  lemma {:induction false} ReadIsShaped(j: Json, t: Type, leaf: string)
    requires WritesNumbers(t)
    ensures Shaped(Read(j, t, leaf), t)
    decreases t
  {
    hide Got, Limit, LabelOf, LeafName, Name;
    if !Fits(j, t) {
      ZeroIsShaped(t);
    } else {
      match t
      case Leaf(_, _, _) =>
      case Slice(elem) =>
        ZeroIsShaped(elem);
        forall i | 0 <= i < |Items(j)| ensures Shaped(Read(Items(j)[i], elem, LabelOf(leaf, i)), elem) {
          ReadIsShaped(Items(j)[i], elem, LabelOf(leaf, i));
        }
      case Struct(fields) =>
        var got := Got(j.members);
        forall i | 0 <= i < |fields| ensures Shaped(ReadField(fields[i], got), fields[i].of) {
          var f := fields[i];
          if IsField(f, Name(f), got) {
            ReadIsShaped(got[Name(f)], f.of, LeafName(Name(f)));
          } else {
            ZeroIsShaped(f.of);
          }
        }
    }
  }

  type Claim = Simple.Claim

  /** What a body's fingerprint is the digest of: the request it decodes to, written out. */
  ghost function Canonical(body: Json, t: Type): string
    requires WritesNumbers(t)
  {
    ReadIsShaped(body, t, "");
    Marshal(Read(body, t, ""), t)
  }

  ghost function ClaimOf(key: string, body: Json, t: Type, digest: string -> Book.Digest): Claim
    requires WritesNumbers(t)
  {
    Simple.Claim(key, digest(Canonical(body, t)))
  }

  /** What is taken of the digest: that these two texts are no collision. */
  predicate NoCollision(digest: string -> Book.Digest, s: string, r: string) { digest(s) == digest(r) ==> s == r }

  /** Two bodies carry one claim under one key exactly when they decode to one request. */
  lemma ClaimsTellRequests(a: Json, b: Json, t: Type, key: string, digest: string -> Book.Digest)
    requires WritesNumbers(t) && NoCollision(digest, Canonical(a, t), Canonical(b, t))
    ensures ClaimOf(key, a, t, digest) == ClaimOf(key, b, t, digest) <==> Read(a, t, "") == Read(b, t, "")
  {
    ReadIsShaped(a, t, "");
    ReadIsShaped(b, t, "");
    MarshalInjective(Read(a, t, ""), Read(b, t, ""), t);
  }

  /** So a request sent again with its members in another order carries the same claim,
      and is taken or refused alike. */
  lemma ReorderedIsOneClaim(a: Json, b: Json, t: Type, key: string, digest: string -> Book.Digest)
    requires WritesNumbers(t) && Reordered.Same(a, b)
    ensures ClaimOf(key, a, t, digest) == ClaimOf(key, b, t, digest)
    ensures Conforms(a, t, "") <==> Conforms(b, t, "")
  {
    hide Marshal, Conforms, Found, Read, Reordered.Same;
    Reordered.SameDecodes(a, b, t, "");
    NoFaultsMeansConforms(a, t, "");
    NoFaultsMeansConforms(b, t, "");
  }

  // -------------------------------------------------------------- the request's own type

  lemma {:induction false} ItoaIsNumber(n: nat)
    ensures IsNumber(Paging.Itoa(n))
  {
    if n < 10 {
    } else {
      ItoaIsNumber(n / 10);
    }
  }

  lemma DecimalIsNumber(n: int)
    ensures IsNumber(Decimal(n))
  {
    ItoaIsNumber(if n < 0 then -n else n);
  }

  lemma AmountIsNumber(text: string)
    ensures ReadWhole(text).Some? ==> IsNumber(ReadWhole(text).value)
  {
    DecimalIsNumber(0);
    if ReadWhole(text).Some? && text != "null" { DecimalIsNumber(Paging.Atoi(text).value); }
  }

  /** The transaction request is such a type, for any readers of its texts. */
  lemma TransactionWritesNumbers(text: string -> Option<Atom>, moment: string -> Option<Atom>)
    ensures WritesNumbers(Paths.TransactionRequest(text, moment))
  {
    hide ReadWhole, IsNumber;
    var posting := Paths.PostingBody(text);
    assert IsNumber("0") by { ItoaIsNumber(0); }
    forall s: string ensures ReadWhole(s).Some? ==> IsNumber(ReadWhole(s).value) { AmountIsNumber(s); }
    assert WritesNumbers(posting.fields[0].of) && WritesNumbers(posting.fields[1].of);
    assert WritesNumbers(posting);
    var t := Paths.TransactionRequest(text, moment);
    assert WritesNumbers(t.fields[0].of) && WritesNumbers(t.fields[1].of) && WritesNumbers(t.fields[3].of);
    assert WritesNumbers(t.fields[2].of);
  }
}
