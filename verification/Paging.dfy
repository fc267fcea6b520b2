/** GET /v1/accounts: the filtered chart in code order, a page at a time, each page naming
    the query that answers the rest. */
module Paging {
  import opened Text
  import opened Book
  import Engine
  import Totals

  type Balance = Totals.Balance

  // ------------------------------------------------------------ the query string

  type Query = map<string, string>

  function Get(q: Query, name: string): string { if name in q then q[name] else "" }

  const PARAMETERS: set<string> := {"currency", "kind", "limit", "after"}

  const DEFAULT_PAGE := 100
  const MAX_PAGE := 1000

  function DigitOf(n: nat): char
    requires n < 10
  {
    '0' + n as char
  }

  function Itoa(n: nat): (s: string)
    ensures s != [] && Within(s[0], '0', '9') && (s[0] == '0' <==> n == 0)
  {
    if n < 10 then [DigitOf(n)] else Itoa(n / 10) + [DigitOf(n % 10)]
  }

  function Digits(s: string): Option<nat> {
    if s == "" then Some(0)
    else
      var last := s[|s| - 1];
      match Digits(s[..|s| - 1])
      case None => None
      case Some(n) => if Within(last, '0', '9') then Some(n * 10 + (last - '0') as nat) else None
  }

  /** strconv.Atoi: one sign at most, then decimal digits and nothing else. A number past
      64 bits is refused there, and here it is past every page size. */
  function Atoi(s: string): Option<int> {
    if s == "" || s == "+" || s == "-" then None
    else if s[0] == '+' then Digits(s[1..])
    else if s[0] == '-' then
      match Digits(s[1..])
      case None => None
      case Some(n) => Some(0 - n as int)
    else Digits(s)
  }

  lemma {:induction false} DigitsOfItoa(n: nat)
    ensures Digits(Itoa(n)) == Some(n)
  {
    if n < 10 {
      assert Itoa(n)[..0] == "";
    } else {
      DigitsOfItoa(n / 10);
      assert Itoa(n)[..|Itoa(n)| - 1] == Itoa(n / 10);
    }
  }

  lemma AtoiOfItoa(n: nat)
    ensures Atoi(Itoa(n)) == Some(n)
  {
    DigitsOfItoa(n);
  }

  predicate AllDigits(s: string) { forall c | c in s :: Within(c, '0', '9') }

  function TenTo(n: nat): nat { if n == 0 then 1 else 10 * TenTo(n - 1) }

  /** Each digit times the power of ten of its place. */
  function Positional(s: string): int
    requires AllDigits(s)
  {
    if s == "" then 0
    else
      assert s[0] in s;
      (s[0] - '0') as int * TenTo(|s| - 1) + Positional(s[1..])
  }

  lemma {:induction false} OneMoreDigit(s: string, last: char)
    requires AllDigits(s) && Within(last, '0', '9')
    ensures AllDigits(s + [last]) && Positional(s + [last]) == 10 * Positional(s) + (last - '0') as int
  {
    if s == "" {
      assert Positional([last]) == (last - '0') as int * TenTo(0) + Positional("");
    } else {
      OneMoreDigit(s[1..], last);
      assert (s + [last])[1..] == s[1..] + [last];
      assert s[0] in s;
      var d := (s[0] - '0') as int;
      assert d * (10 * TenTo(|s| - 1)) == 10 * (d * TenTo(|s| - 1));
    }
  }

  lemma {:induction false} DigitsMean(s: string)
    ensures Digits(s).Some? <==> AllDigits(s)
    ensures AllDigits(s) ==> Digits(s) == Some(Positional(s))
  {
    if s == "" {
    } else {
      var front, last := s[..|s| - 1], s[|s| - 1];
      assert s == front + [last];
      DigitsMean(front);
      if AllDigits(s) { OneMoreDigit(front, last); }
    }
  }

  /** A number is one sign at most and then digits, and is what they say. */
  lemma AtoiMeans(s: string)
    ensures var signed := s != "" && (s[0] == '+' || s[0] == '-');
      var digits := if signed then s[1..] else s;
      && (Atoi(s).Some? <==> digits != "" && AllDigits(digits))
      && (Atoi(s).Some? ==> Atoi(s).value == if s[0] == '-' then -Positional(digits) else Positional(digits))
  {
    hide Digits;
    DigitsMean(s);
    if s != "" { DigitsMean(s[1..]); }
  }

  /** None is a refusal. */
  function PageSize(q: Query): (page: Option<nat>)
    ensures page.Some? ==> 1 <= page.value <= MAX_PAGE
  {
    if Get(q, "limit") == "" then Some(DEFAULT_PAGE)
    else
      match Atoi(Get(q, "limit"))
      case None => None
      case Some(n) => if n < 1 || n > MAX_PAGE then None else Some(n)
  }

  datatype Filter = Filter(currency: string, kind: string, after: string)

  function FilterOf(q: Query): Filter { Filter(Get(q, "currency"), Get(q, "kind"), Get(q, "after")) }

  /** Where the rest of the answer is. */
  function NextPage(f: Filter, page: nat, last: string): Query {
    (if f.currency != "" then map["currency" := f.currency] else map[])
    + (if f.kind != "" then map["kind" := f.kind] else map[])
    + map["limit" := Itoa(page), "after" := last]
  }

  predicate Continues(q: Query, f: Filter, page: nat) {
    q.Keys <= PARAMETERS && FilterOf(q) == f && PageSize(q) == Some(page)
  }

  /** The address of the next page asks for the same accounts, past the last one answered,
      in pages of the same size. */
  lemma NextAsksForTheRest(f: Filter, page: nat, last: string)
    requires 1 <= page <= MAX_PAGE
    ensures Continues(NextPage(f, page, last), f.(after := last), page)
  {
    AtoiOfItoa(page);
  }

  // -------------------------------------------------------------------- Balances

  predicate Matches(a: Account, f: Filter) {
    && (f.currency == "" || a.currency == f.currency)
    && (f.kind == "" || Engine.KindOf(f.kind) == Some(a.kind))
    && (f.after == "" || Less(f.after, a.code))
  }

  function Matching(accounts: seq<Account>, f: Filter): set<string> {
    set a | a in accounts && Matches(a, f) :: a.code
  }

  predicate AllHeld(accounts: seq<Account>, codes: seq<string>) {
    forall code | code in codes :: FindAccount(accounts, code).Some?
  }

  /** The rows of account_balances under these codes. */
  function Rows(t: Tables, codes: seq<string>): (rows: seq<Balance>)
    requires AllHeld(t.accounts, codes)
    ensures |rows| == |codes|
    ensures forall i :: 0 <= i < |codes| ==> Some(rows[i]) == Totals.BalanceOf(t, codes[i]) && rows[i].code == codes[i]
  {
    if codes == [] then []
    else
      var n := |codes| - 1;
      Rows(t, codes[..n]) + [Totals.BalanceOf(t, codes[n]).value]
  }

  function Taking(codes: seq<string>, limit: int): seq<string> {
    if limit <= 0 || |codes| <= limit then codes else codes[..limit]
  }

  lemma MatchingIsHeld(accounts: seq<Account>, f: Filter)
    ensures AllHeld(accounts, Sorted(Matching(accounts, f)))
  {
  }

  /** The loop over the rows a query answers with. */
  method Scanned(t: Tables, codes: seq<string>) returns (rows: seq<Balance>)
    requires AllHeld(t.accounts, codes)
    ensures rows == Rows(t, codes)
  {
    rows := [];
    for i := 0 to |codes|
      invariant rows == Rows(t, codes[..i])
    {
      assert codes[..i + 1][..i] == codes[..i];
      rows := rows + [Totals.BalanceOf(t, codes[i]).value];
    }
    assert codes[..|codes|] == codes;
  }

  /** The filter, the order and the limit of the query. */
  method Balances(t: Tables, f: Filter, limit: int) returns (out: Option<seq<Balance>>)
    ensures out.None? <==> f.kind != "" && Engine.KindOf(f.kind).None?
    ensures out.Some? ==>
      var codes := Taking(Sorted(Matching(t.accounts, f)), limit);
      AllHeld(t.accounts, codes) && out.value == Rows(t, codes)
    ensures out.Some? ==>
      |out.value| == if 0 < limit < |Matching(t.accounts, f)| then limit else |Matching(t.accounts, f)|
  {
    hide Sorted, Matching, Engine.KindOf, Rows, Totals.BalanceOf;
    if f.kind != "" && Engine.KindOf(f.kind).None? {
      return None;
    }
    MatchingIsHeld(t.accounts, f);
    var codes := Taking(Sorted(Matching(t.accounts, f)), limit);
    var rows := Scanned(t, codes);
    return Some(rows);
  }

  // ---------------------------------------------------------------- the endpoint

  datatype BalanceBody =
    BalanceBody(account: string, name: string, kind: string, currency: string, balanceMinor: int, postings: nat)

  /** A kind as the enum spells it. */
  function KindText(k: Kind): (s: string)
    ensures Engine.KindOf(s) == Some(k)
  {
    match k
    case Asset => "asset"
    case Liability => "liability"
    case Equity => "equity"
    case Revenue => "revenue"
    case Expense => "expense"
  }

  function OnTheWire(b: Balance): BalanceBody {
    BalanceBody(b.code, b.name, KindText(b.kind), b.currency, b.amount, b.postings)
  }

  function Bodies(rows: seq<Balance>): (bodies: seq<BalanceBody>)
    ensures |bodies| == |rows| && forall i :: 0 <= i < |rows| ==> bodies[i] == OnTheWire(rows[i])
  {
    seq(|rows|, i requires 0 <= i < |rows| => OnTheWire(rows[i]))
  }

  datatype Reply =
    | UnknownParameter(name: string)
    | BadLimit
    | UnknownKind
    | Page(accounts: seq<BalanceBody>, next: Option<Query>)

  /** What one request answers with: the first page of what it asks for, and a next page
      exactly when there is more. */
  function Served(t: Tables, q: Query): Reply {
    var unknown := q.Keys - PARAMETERS;
    var page := PageSize(q);
    var f := FilterOf(q);
    var codes := Sorted(Matching(t.accounts, f));
    MatchingIsHeld(t.accounts, f);
    if unknown != {} then UnknownParameter(Least(unknown))
    else if page.None? then BadLimit
    else if f.kind != "" && Engine.KindOf(f.kind).None? then UnknownKind
    else if |codes| <= page.value then Page(Bodies(Rows(t, codes)), None)
    else Page(Bodies(Rows(t, codes[..page.value])), Some(NextPage(f, page.value, codes[page.value - 1])))
  }

  lemma {:induction false} RowsTake(t: Tables, codes: seq<string>, n: nat)
    requires AllHeld(t.accounts, codes) && n <= |codes|
    ensures Rows(t, codes)[..n] == Rows(t, codes[..n])
  {
    var rows, part := Rows(t, codes), Rows(t, codes[..n]);
    forall i | 0 <= i < n ensures rows[i] == part[i] {
      assert Some(rows[i]) == Totals.BalanceOf(t, codes[i]);
      assert Some(part[i]) == Totals.BalanceOf(t, codes[..n][i]);
    }
  }

  method BodyOf(rows: seq<Balance>) returns (body: seq<BalanceBody>)
    ensures body == Bodies(rows)
  {
    body := [];
    for i := 0 to |rows|
      invariant body == Bodies(rows[..i])
    {
      body := body + [OnTheWire(rows[i])];
    }
    assert rows[..|rows|] == rows;
  }

  /** One account past the page is enough to tell that there is another. */
  lemma OneMore(t: Tables, q: Query, page: nat, rows: seq<Balance>)
    requires PageSize(q) == Some(page) && AllHeld(t.accounts, Sorted(Matching(t.accounts, FilterOf(q))))
    requires rows == Rows(t, Taking(Sorted(Matching(t.accounts, FilterOf(q))), page + 1))
    ensures Served(t, q).Page? ==>
      Served(t, q) ==
        if |rows| > page then Page(Bodies(rows[..page]), Some(NextPage(FilterOf(q), page, rows[page - 1].code)))
        else Page(Bodies(rows), None)
  {
    hide Sorted, Matching, Least, NextPage, PageSize, Rows, FilterOf, Bodies, AllHeld, Engine.KindOf;
    var codes := Sorted(Matching(t.accounts, FilterOf(q)));
    if |rows| > page {
      RowsTake(t, Taking(codes, page + 1), page);
      assert Taking(codes, page + 1)[..page] == codes[..page];
    }
  }

  lemma SomeAreHeld(accounts: seq<Account>, codes: seq<string>, n: nat)
    requires AllHeld(accounts, codes) && n <= |codes|
    ensures AllHeld(accounts, codes[..n])
  {
  }

  lemma RepliesTo(t: Tables, q: Query)
    ensures var r, unknown, kind := Served(t, q), q.Keys - PARAMETERS, FilterOf(q).kind;
      if unknown != {} then r == UnknownParameter(Least(unknown))
      else if PageSize(q).None? then r == BadLimit
      else if kind != "" && Engine.KindOf(kind).None? then r == UnknownKind
      else r.Page?
  {
    hide Sorted, Matching, Rows, NextPage, Less, Least, AllHeld, PageSize, FilterOf, Engine.KindOf;
    MatchingIsHeld(t.accounts, FilterOf(q));
    var codes := Sorted(Matching(t.accounts, FilterOf(q)));
    if PageSize(q).Some? && |codes| > PageSize(q).value { SomeAreHeld(t.accounts, codes, PageSize(q).value); }
  }

  /** It asks for one account past the page, which is how it knows there is another. */
  method Accounts(t: Tables, q: Query) returns (r: Reply)
    ensures r == Served(t, q)
  {
    hide Served, Sorted, Matching, Least, NextPage, PageSize, Rows, FilterOf, Bodies, Engine.KindOf;
    RepliesTo(t, q);
    var unknown := q.Keys - PARAMETERS;
    if unknown != {} {
      return UnknownParameter(Least(unknown));
    }
    var page := PageSize(q);
    if page.None? {
      return BadLimit;
    }
    var f := FilterOf(q);
    var found := Balances(t, f, page.value + 1);
    if found.None? {
      return UnknownKind;
    }
    MatchingIsHeld(t.accounts, f);
    var rows := found.value;
    OneMore(t, q, page.value, rows);
    var more := |rows| > page.value;
    if more {
      rows := rows[..page.value];
    }
    var body := BodyOf(rows);
    return Page(body, if more then Some(NextPage(f, page.value, rows[|rows| - 1].code)) else None);
  }

  // ------------------------------------------------------------ what an answer says

  /** A parameter that was sent, and not empty. */
  predicate Asks(q: Query, name: string) { name in q && q[name] != "" }

  /** An account the query asks for. */
  ghost predicate IsWanted(a: Account, q: Query) {
    && (Asks(q, "currency") ==> a.currency == q["currency"])
    && (Asks(q, "kind") ==> Engine.KindOf(q["kind"]) == Some(a.kind))
    && (Asks(q, "after") ==> Less(q["after"], a.code))
  }

  /** A row of the answer says of an account what the chart and the postings say. */
  ghost predicate Describes(t: Tables, a: Account, row: BalanceBody) {
    && row.account == a.code && row.name == a.name && row.currency == a.currency
    && Engine.KindOf(row.kind) == Some(a.kind)
    && row.balanceMinor == Totals.PostedTo(t.postings, a.id)
    && row.postings == Totals.TimesPostedTo(t.postings, a.id)
  }

  ghost predicate DescribesWanted(t: Tables, q: Query, a: Account, row: BalanceBody) {
    a in t.accounts && IsWanted(a, q) && Describes(t, a, row)
  }

  ghost predicate IsOnPage(accounts: seq<BalanceBody>, code: string) {
    exists i :: 0 <= i < |accounts| && accounts[i].account == code
  }

  /** How many accounts a page is to hold: None is a refusal. */
  function SizeAsked(q: Query): Option<int> { if Asks(q, "limit") then Atoi(q["limit"]) else Some(100) }

  lemma WantedIsMatching(a: Account, q: Query)
    ensures IsWanted(a, q) <==> Matches(a, FilterOf(q))
  {
  }

  lemma RowDescribes(t: Tables, q: Query, codes: seq<string>, i: nat)
    requires DistinctAccounts(t.accounts) && AllHeld(t.accounts, codes) && i < |codes|
    requires codes[i] in Matching(t.accounts, FilterOf(q))
    ensures exists a :: DescribesWanted(t, q, a, Bodies(Rows(t, codes))[i])
  {
    hide Sorted, Matches, FilterOf, IsWanted, Engine.KindOf, Totals.PostedTo, Totals.TimesPostedTo, FindAccount, Less;
    var a :| a in t.accounts && Matches(a, FilterOf(q)) && a.code == codes[i];
    WantedIsMatching(a, q);
    Totals.BalanceIsTheAccounts(t, codes[i]);
    var b :| b in t.accounts && b.code == codes[i] &&
      Totals.ReportsAccount(t, b, Totals.BalanceOf(t, codes[i]).value);
    assert b == a;
    assert Bodies(Rows(t, codes))[i] == OnTheWire(Rows(t, codes)[i]);
    assert DescribesWanted(t, q, a, Bodies(Rows(t, codes))[i]);
  }

  /** The codes a page lists. */
  ghost function PageCodes(t: Tables, q: Query): seq<string>
    requires PageSize(q).Some?
  {
    var all := Sorted(Matching(t.accounts, FilterOf(q)));
    if |all| <= PageSize(q).value then all else all[..PageSize(q).value]
  }

  lemma PageIs(t: Tables, q: Query)
    requires Served(t, q).Page?
    ensures PageSize(q).Some? && AllHeld(t.accounts, PageCodes(t, q))
    ensures Served(t, q).accounts == Bodies(Rows(t, PageCodes(t, q)))
    ensures forall i :: 0 <= i < |PageCodes(t, q)| ==> PageCodes(t, q)[i] in Matching(t.accounts, FilterOf(q))
  {
    hide Matching, FilterOf, PageSize, NextPage, Less, Rows, Bodies, Sorted, Least, AllHeld, Engine.KindOf;
    MatchingIsHeld(t.accounts, FilterOf(q));
    var all := Sorted(Matching(t.accounts, FilterOf(q)));
    if |all| > PageSize(q).value { SomeAreHeld(t.accounts, all, PageSize(q).value); }
    forall i | 0 <= i < |PageCodes(t, q)| ensures PageCodes(t, q)[i] in Matching(t.accounts, FilterOf(q)) {
      assert all[i] in all;
    }
  }

  /** Every row of a page is of an account the query asks for, and says of it what the chart
      and the postings say. */
  lemma PageDescribes(t: Tables, q: Query)
    requires WellFormed(t) && Served(t, q).Page?
    ensures forall row :: row in Served(t, q).accounts ==> exists a :: DescribesWanted(t, q, a, row)
  {
    hide Sorted, Matching, FilterOf, WellFormed, PageSize, PageCodes, DescribesWanted, Served, Rows;
    PageIs(t, q);
    WellFormedIsDistinct(t);
    var codes := PageCodes(t, q);
    forall row | row in Served(t, q).accounts ensures exists a :: DescribesWanted(t, q, a, row) {
      var i :| 0 <= i < |codes| && Bodies(Rows(t, codes))[i] == row;
      RowDescribes(t, q, codes, i);
    }
  }

  /** The rows come in code order, as many as were asked for where there is a next page, and
      an account asked for that is not among them comes after the last, on a later page. */
  lemma PageLeavesTheRest(t: Tables, q: Query)
    requires WellFormed(t) && Served(t, q).Page?
    ensures var r := Served(t, q);
      && SizeAsked(q).Some? && |r.accounts| <= SizeAsked(q).value
      && (r.next.Some? ==> |r.accounts| == SizeAsked(q).value)
      && (forall i, j :: 0 <= i < j < |r.accounts| ==> Less(r.accounts[i].account, r.accounts[j].account))
      && (forall a :: a in t.accounts && IsWanted(a, q) && !IsOnPage(r.accounts, a.code) ==>
           r.next.Some? && r.accounts != [] && Less(r.accounts[|r.accounts| - 1].account, a.code))
  {
    hide Sorted, Matching, FilterOf, WellFormed, IsWanted, Matches, Served, Less, PageSize;
    PageMeans(t, q);
    SizeIsAsked(q);
    var r, page := Served(t, q), PageSize(q).value;
    var all := Sorted(Matching(t.accounts, FilterOf(q)));
    forall i | 0 <= i < |r.accounts| ensures r.accounts[i].account == all[i] { assert Listed(r)[i] == all[i]; }
    assert |r.accounts| == |Listed(r)|;
    forall a | a in t.accounts && IsWanted(a, q)
      ensures IsOnPage(r.accounts, a.code)
           || (r.next.Some? && r.accounts != [] && Less(r.accounts[|r.accounts| - 1].account, a.code))
    {
      WantedIsMatching(a, q);
      MatchingHas(t.accounts, FilterOf(q), a);
      var i :| 0 <= i < |all| && all[i] == a.code;
      if i < |r.accounts| { assert r.accounts[i].account == a.code; }
    }
  }

  lemma SizeIsAsked(q: Query)
    ensures PageSize(q).Some? ==> SizeAsked(q) == Some(PageSize(q).value)
    ensures PageSize(q).None? <==> BadSize(q)
  {
    hide Atoi;
  }

  lemma WellFormedIsDistinct(t: Tables)
    requires WellFormed(t)
    ensures DistinctAccounts(t.accounts)
  {
  }

  lemma MatchingHas(accounts: seq<Account>, f: Filter, a: Account)
    requires a in accounts && Matches(a, f)
    ensures a.code in Matching(accounts, f)
  {
  }

  /** The four names a query may carry. */
  ghost predicate Unknown(q: Query, name: string) { name in q && name !in ["currency", "kind", "limit", "after"] }

  ghost predicate BadSize(q: Query) { SizeAsked(q).None? || !(1 <= SizeAsked(q).value <= 1000) }

  /** And every refusal is for the first thing wrong: the least unknown name, then the page
      size, then the kind. */
  lemma RefusalSays(t: Tables, q: Query)
    ensures var r, known := Served(t, q), !exists name :: Unknown(q, name);
      && (r.UnknownParameter? <==> !known)
      && (r.UnknownParameter? ==>
            Unknown(q, r.name) && forall name :: Unknown(q, name) ==> name == r.name || Less(r.name, name))
      && (r.BadLimit? <==> known && BadSize(q))
      && (r.UnknownKind? <==> known && !BadSize(q) && Asks(q, "kind") && Engine.KindOf(q["kind"]).None?)
  {
    hide Served, Less, BadSize, PageSize, Engine.KindOf;
    RepliesTo(t, q);
    SizeIsAsked(q);
    forall name ensures Unknown(q, name) <==> name in q.Keys - PARAMETERS {}
    if q.Keys - PARAMETERS != {} {
      var name :| name in q.Keys - PARAMETERS;
      assert Unknown(q, name);
    }
  }

  // ------------------------------------------------------- following next to the end

  function Codes(rows: seq<BalanceBody>): seq<string> { seq(|rows|, i requires 0 <= i < |rows| => rows[i].account) }

  function Listed(r: Reply): seq<string> { if r.Page? then Codes(r.accounts) else [] }

  predicate Past(after: string, code: string) { after == "" || Less(after, code) }

  /** One page, by the codes it lists. */
  lemma PageMeans(t: Tables, q: Query)
    requires Served(t, q).Page?
    ensures var r, f, page := Served(t, q), FilterOf(q), PageSize(q);
      var codes := Sorted(Matching(t.accounts, f));
      && page.Some? && 1 <= page.value <= MAX_PAGE
      && Listed(r) == (if |codes| <= page.value then codes else codes[..page.value])
      && (r.next.Some? <==> |codes| > page.value)
      && (r.next.Some? ==> Continues(r.next.value, f.(after := codes[page.value - 1]), page.value))
  {
    hide Sorted, Matching, NextPage, FilterOf, PageSize, Atoi;
    MatchingIsHeld(t.accounts, FilterOf(q));
    var codes := Sorted(Matching(t.accounts, FilterOf(q)));
    if |codes| > PageSize(q).value {
      NextAsksForTheRest(FilterOf(q), PageSize(q).value, codes[PageSize(q).value - 1]);
      assert Listed(Served(t, q)) == codes[..PageSize(q).value];
    } else {
      assert Listed(Served(t, q)) == codes;
    }
  }

  lemma NoneGreater(s: seq<string>, x: string)
    requires Ascending(s) && s != [] && Less(s[|s| - 1], x)
    ensures x !in s
  {
    forall i | 0 <= i < |s| ensures s[i] != x {
      LessIsTotal(s[i], x);
      LessIsTotal(s[|s| - 1], x);
      LessIsTotal(s[i], s[|s| - 1]);
    }
  }

  lemma MemberMeans(t: Tables, f: Filter, x: string)
    requires WellFormed(t) && x in Matching(t.accounts, f)
    ensures x != "" && Past(f.after, x)
  {
  }

  /** Past a page, what is left to list is the rest of the listing. */
  lemma RestOfListing(t: Tables, f: Filter, page: nat)
    requires WellFormed(t) && 1 <= page < |Sorted(Matching(t.accounts, f))|
    ensures var codes := Sorted(Matching(t.accounts, f));
      codes[page..] == Sorted(Matching(t.accounts, f.(after := codes[page - 1])))
  {
    hide Sorted, CodeShape, PostingHeld, DistinctAccounts, DistinctTransactions;
    var codes := Sorted(Matching(t.accounts, f));
    var rest, left := codes[page..], Matching(t.accounts, f.(after := codes[page - 1]));
    MemberMeans(t, f, codes[page - 1]);
    forall x | x in rest ensures x in left {
      var i :| 0 <= i < |rest| && rest[i] == x;
      assert Less(codes[page - 1], codes[page + i]);
      assert x in Matching(t.accounts, f);
    }
    forall x | x in left ensures x in rest {
      LaterMatches(t.accounts, f, codes[page - 1], x);
      assert codes == codes[..page] + rest;
      NoneGreater(codes[..page], x);
    }
    SortedIsUnique(rest, left);
  }

  /** A cursor inside the listing narrows it. */
  lemma LaterMatches(accounts: seq<Account>, f: Filter, last: string, x: string)
    requires Past(f.after, last) && last != "" && x in Matching(accounts, f.(after := last))
    ensures x in Matching(accounts, f) && Less(last, x)
  {
    var a :| a in accounts && Matches(a, f.(after := last)) && a.code == x;
    if f.after != "" { LessIsTransitive(f.after, last, x); }
    assert Matches(a, f);
  }

  /** One request: the chart as it stands when it is answered, and the answer. */
  datatype Visit = Visit(chart: Tables, query: Query, reply: Reply)

  ghost predicate Answered(v: Visit) {
    WellFormed(v.chart) && v.reply == Served(v.chart, v.query) && v.reply.Page?
  }

  /** The next request asks where the last answer said, of a chart that may have grown. */
  predicate GoesOn(v: Visit, w: Visit) {
    v.reply.Page? && v.reply.next == Some(w.query) && v.chart.accounts <= w.chart.accounts
  }

  /** Requests answered one after another, accounts being opened between them. */
  ghost predicate Followed(walk: seq<Visit>) {
    && walk != []
    && (forall i :: 0 <= i < |walk| ==> Answered(walk[i]))
    && (forall i, j :: 0 <= i < j < |walk| && j == i + 1 ==> GoesOn(walk[i], walk[j]))
  }

  function Last(walk: seq<Visit>): Visit
    requires walk != []
  {
    walk[|walk| - 1]
  }

  /** Every code the answers name, in the order they name them. */
  function Listing(walk: seq<Visit>): seq<string> {
    if walk == [] then [] else Listed(walk[0].reply) + Listing(walk[1..])
  }

  function Wanted(v: Visit): set<string> { Matching(v.chart.accounts, FilterOf(v.query)) }

  lemma FirstAnswered(walk: seq<Visit>)
    requires Followed(walk)
    ensures Answered(walk[0])
  {
  }

  lemma FollowedOn(walk: seq<Visit>)
    requires Followed(walk) && |walk| > 1
    ensures Followed(walk[1..]) && GoesOn(walk[0], walk[1]) && Last(walk[1..]) == Last(walk) && walk[1..][0] == walk[1]
    ensures Listing(walk) == Listed(walk[0].reply) + Listing(walk[1..])
  {
    hide Answered, GoesOn;
  }

  predicate Precedes(listed: seq<string>, later: seq<string>) {
    forall x, y | x in listed && y in later :: Less(x, y)
  }

  lemma AscendingConcat(a: seq<string>, b: seq<string>)
    requires Ascending(a) && Ascending(b) && Precedes(a, b)
    ensures Ascending(a + b)
  {
    var s := a + b;
    forall i, j | 0 <= i < j < |s| ensures Less(s[i], s[j]) {
      if i < |a| <= j { assert s[i] in a && s[j] in b; }
    }
  }

  /** The codes of one page: in order, matching, and past the cursor. */
  lemma PageAscends(v: Visit)
    requires Answered(v)
    ensures Ascending(Listed(v.reply))
    ensures forall x :: x in Listed(v.reply) ==> x in Wanted(v) && x != "" && Past(FilterOf(v.query).after, x)
    ensures v.reply.next.Some? ==>
      Listed(v.reply) != [] &&
        FilterOf(v.reply.next.value) == FilterOf(v.query).(after := Listed(v.reply)[|Listed(v.reply)| - 1])
  {
    hide Sorted, Matching, WellFormed, FilterOf, PageSize, Served;
    PageMeans(v.chart, v.query);
    forall x | x in Wanted(v) ensures x != "" && Past(FilterOf(v.query).after, x) {
      MemberMeans(v.chart, FilterOf(v.query), x);
    }
  }

  lemma LastIsGreatest(s: seq<string>, x: string, y: string)
    requires Ascending(s) && x in s && Less(s[|s| - 1], y)
    ensures Less(x, y)
  {
    var i :| 0 <= i < |s| && s[i] == x;
    if i < |s| - 1 { LessIsTransitive(x, s[|s| - 1], y); }
  }

  lemma MatchingGrows(before: seq<Account>, after: seq<Account>, f: Filter)
    requires before <= after
    ensures Matching(before, f) <= Matching(after, f)
  {
  }

  lemma {:induction false} ChartsGrow(walk: seq<Visit>)
    requires Followed(walk)
    ensures walk[0].chart.accounts <= Last(walk).chart.accounts
    decreases |walk|
  {
    hide Answered, Listed, GoesOn;
    if |walk| == 1 {
    } else {
      FollowedOn(walk);
      ChartsGrow(walk[1..]);
      Grew(walk[0], walk[1], Last(walk));
    }
  }

  /** What `PagesAscend` says of a walk. */
  ghost predicate InOrder(walk: seq<Visit>)
    requires walk != []
  {
    var f := FilterOf(walk[0].query);
    && Ascending(Listing(walk))
    && forall x :: x in Listing(walk) ==> x in Matching(Last(walk).chart.accounts, f) && x != "" && Past(f.after, x)
  }

  lemma PageThenRest(first: Visit, rest: seq<Visit>, f: Filter)
    requires Answered(first) && rest != [] && GoesOn(first, rest[0]) && InOrder(rest)
    requires f == FilterOf(first.query) && first.chart.accounts <= Last(rest).chart.accounts
    ensures var codes := Listed(first.reply) + Listing(rest);
      && Ascending(codes)
      && forall x :: x in codes ==> x in Matching(Last(rest).chart.accounts, f) && x != "" && Past(f.after, x)
  {
    hide Answered, Matching, FilterOf, Listed, Listing;
    PageAscends(first);
    var page, later := Listed(first.reply), Listing(rest);
    var last := page[|page| - 1];
    var accounts := Last(rest).chart.accounts;
    MatchingGrows(first.chart.accounts, accounts, f);
    forall x | x in later ensures Less(last, x) && x in Matching(accounts, f) && Past(f.after, x) {
      LaterMatches(accounts, f, last, x);
      if f.after != "" { LessIsTransitive(f.after, last, x); }
    }
    forall x, y | x in page && y in later ensures Less(x, y) { LastIsGreatest(page, x, y); }
    AscendingConcat(page, later);
  }

  /** Nothing is answered twice: the codes come in strictly increasing order across every
      page, all of them past the cursor and all of them matching the filter. */
  lemma {:induction false} PagesAscend(walk: seq<Visit>)
    requires Followed(walk)
    ensures InOrder(walk)
    decreases |walk|
  {
    hide Answered, Matching, FilterOf, Listed, GoesOn;
    FirstAnswered(walk);
    if |walk| == 1 {
      assert Listing(walk) == Listed(walk[0].reply) + Listing([]);
      PageAscends(walk[0]);
    } else {
      FollowedOn(walk);
      PagesAscend(walk[1..]);
      ChartsGrow(walk[1..]);
      Grew(walk[0], walk[1], Last(walk));
      PageThenRest(walk[0], walk[1..], FilterOf(walk[0].query));
    }
  }

  lemma Grew(v: Visit, w: Visit, last: Visit)
    requires GoesOn(v, w) && w.chart.accounts <= last.chart.accounts
    ensures v.chart.accounts <= last.chart.accounts
  {
  }

  /** What matches now and is not on this page is past the next one's cursor. */
  lemma LeftForLater(v: Visit, w: Visit, x: string)
    requires Answered(v) && x in Wanted(v)
    ensures x in Listed(v.reply) || v.reply.next.Some?
    ensures x !in Listed(v.reply) && GoesOn(v, w) ==> x in Wanted(w)
  {
    hide Sorted, Matching, WellFormed, FilterOf, PageSize, Served;
    PageMeans(v.chart, v.query);
    var f, page := FilterOf(v.query), PageSize(v.query).value;
    var codes := Sorted(Wanted(v));
    assert x in codes;
    if |codes| > page {
      RestOfListing(v.chart, f, page);
      assert codes == codes[..page] + codes[page..];
      if GoesOn(v, w) { MatchingGrows(v.chart.accounts, w.chart.accounts, FilterOf(w.query)); }
    }
  }

  /** Nothing is missed: an account that matched when the first page was asked for is
      listed by the end, whatever is opened meanwhile; by PagesAscend, exactly once. */
  lemma {:induction false} NothingIsMissed(walk: seq<Visit>, x: string)
    requires Followed(walk) && Last(walk).reply.next.None? && x in Wanted(walk[0])
    ensures x in Listing(walk)
    decreases |walk|
  {
    hide Answered, Wanted, Listed;
    if |walk| == 1 {
      assert Listing(walk) == Listed(walk[0].reply) + Listing([]);
      LeftForLater(walk[0], walk[0], x);
    } else {
      FollowedOn(walk);
      if x !in Listed(walk[0].reply) {
        LeftForLater(walk[0], walk[1], x);
        NothingIsMissed(walk[1..], x);
      }
    }
  }

  lemma {:induction false} AscendingIsDistinct(s: seq<string>, among: set<string>)
    requires Ascending(s) && forall x :: x in s ==> x in among
    ensures |s| <= |among|
    decreases |s|
  {
    if s == [] {
    } else {
      forall x | x in s[1..] ensures x in among - {s[0]} {
        var i :| 0 <= i < |s[1..]| && s[1..][i] == x;
        assert Less(s[0], s[i + 1]);
        LessIsTotal(s[0], x);
      }
      assert s[0] in among;
      AscendingIsDistinct(s[1..], among - {s[0]});
    }
  }

  lemma PageIsFull(v: Visit, page: nat)
    requires Answered(v) && PageSize(v.query) == Some(page)
    ensures |Listed(v.reply)| <= page && (v.reply.next.Some? ==> |Listed(v.reply)| == page)
    ensures v.reply.next.Some? ==> PageSize(v.reply.next.value) == Some(page)
    ensures v.reply.next.None? ==> |Listed(v.reply)| == |Wanted(v)|
  {
    hide Sorted, Matching, WellFormed, FilterOf, PageSize, Served;
    PageMeans(v.chart, v.query);
  }

  /** Every page but the last is full. */
  lemma {:induction false} FullPages(walk: seq<Visit>, page: nat)
    requires Followed(walk) && PageSize(walk[0].query) == Some(page)
    ensures |Listing(walk)| == (|walk| - 1) * page + |Listed(Last(walk).reply)|
    ensures PageSize(Last(walk).query) == Some(page)
    decreases |walk|
  {
    hide Answered, PageSize, Listed;
    PageIsFull(walk[0], page);
    if |walk| == 1 {
      assert Listing(walk) == Listed(walk[0].reply) + Listing([]);
    } else {
      FollowedOn(walk);
      FullPages(walk[1..], page);
      assert (|walk| - 1) * page == (|walk| - 2) * page + page;
    }
  }

  /** It ends: every page but the last is full of accounts no other page names, so the
      requests made are bounded by the accounts matching when the last was answered. */
  lemma RequestsAreBounded(walk: seq<Visit>)
    requires Followed(walk)
    ensures PageSize(walk[0].query).Some?
    ensures (|walk| - 1) * PageSize(walk[0].query).value
         <= |Matching(Last(walk).chart.accounts, FilterOf(walk[0].query))|
  {
    hide Served, Matching, WellFormed, FilterOf, PageSize, Listed, Listing;
    assert Answered(walk[0]);
    PageMeans(walk[0].chart, walk[0].query);
    FullPages(walk, PageSize(walk[0].query).value);
    PagesAscend(walk);
    AscendingIsDistinct(Listing(walk), Matching(Last(walk).chart.accounts, FilterOf(walk[0].query)));
  }

  /** The codes past the cursor are a measure: whatever accounts a later chart holds, each
      page leaves fewer of them to list, by the page's own size. */
  lemma CursorAdvances(v: Visit, later: seq<Account>)
    requires Answered(v) && v.reply.next.Some? && v.chart.accounts <= later
    ensures |Matching(later, FilterOf(v.reply.next.value))| + |Listed(v.reply)| <= |Matching(later, FilterOf(v.query))|
  {
    hide Answered, Matching, FilterOf, Listed;
    PageAscends(v);
    var f, page := FilterOf(v.query), Listed(v.reply);
    var last := page[|page| - 1];
    var rest, all := Matching(later, f.(after := last)), Matching(later, f);
    MatchingGrows(v.chart.accounts, later, f);
    forall x | x in rest ensures x in all && x !in page {
      LaterMatches(later, f, last, x);
      NoneGreater(page, x);
    }
    AscendingIsDistinct(page, all - rest);
    assert rest + (all - rest) == all;
  }

  /** Over a chart nothing is opened in, the pages are exactly the filtered chart in code
      order, in as many requests as the page size needs and no more. */
  lemma UnchangingChart(t: Tables, walk: seq<Visit>, page: nat)
    requires Followed(walk) && Last(walk).reply.next.None? && PageSize(walk[0].query) == Some(page)
    requires forall i :: 0 <= i < |walk| ==> walk[i].chart == t
    ensures var codes := Sorted(Wanted(walk[0]));
      && Listing(walk) == codes
      && (codes == [] ==> |walk| == 1)
      && (codes != [] ==> (|walk| - 1) * page < |codes| <= |walk| * page)
  {
    hide Served, Matching, WellFormed, FilterOf, PageSize, Sorted, Listed, Listing;
    var left := Wanted(walk[0]);
    assert Last(walk).chart == t;
    PagesAscend(walk);
    forall x | x in left ensures x in Listing(walk) { NothingIsMissed(walk, x); }
    SortedIsUnique(Listing(walk), left);
    FullPages(walk, page);
    PageIsFull(Last(walk), page);
    LastIsNotEmpty(t, walk);
    assert |walk| * page == (|walk| - 1) * page + page;
  }

  lemma RestIsNotEmpty(t: Tables, v: Visit, w: Visit)
    requires Answered(v) && GoesOn(v, w) && v.chart == t && w.chart == t
    ensures Wanted(w) != {}
  {
    hide Sorted, Matching, WellFormed, FilterOf, PageSize, Served;
    PageMeans(t, v.query);
    RestOfListing(t, FilterOf(v.query), PageSize(v.query).value);
  }

  lemma LastIsNotEmpty(t: Tables, walk: seq<Visit>)
    requires Followed(walk) && Last(walk).reply.next.None?
    requires forall i :: 0 <= i < |walk| ==> walk[i].chart == t
    ensures |walk| > 1 ==> Listed(Last(walk).reply) != []
  {
    hide Served, WellFormed, FilterOf, PageSize, Sorted, Matching;
    if |walk| > 1 {
      var v, w := walk[|walk| - 2], Last(walk);
      assert GoesOn(v, w);
      RestIsNotEmpty(t, v, w);
      PageMeans(t, w.query);
    }
  }

  /** The address an answer gives is always answered with a page. */
  lemma NextIsAnswered(t: Tables, q: Query)
    requires Served(t, q).Page? && Served(t, q).next.Some?
    ensures Served(t, Served(t, q).next.value).Page?
  {
    hide Sorted, Matching, FilterOf, PageSize, Rows, NextPage, Less;
    PageMeans(t, q);
    MatchingIsHeld(t.accounts, FilterOf(q));
    var next := Served(t, q).next.value;
    assert next.Keys - PARAMETERS == {};
  }

  /** Any query that is answered with a page can be followed to its end. */
  lemma {:induction false} WalkEnds(t: Tables, q: Query) returns (walk: seq<Visit>)
    requires WellFormed(t) && Served(t, q).Page?
    ensures Followed(walk) && walk[0] == Visit(t, q, Served(t, q)) && Last(walk).reply.next.None?
    ensures forall i :: 0 <= i < |walk| ==> walk[i].chart == t
    decreases |Matching(t.accounts, FilterOf(q))|
  {
    hide Served, WellFormed, Matching, FilterOf, Listed;
    var v := Visit(t, q, Served(t, q));
    if v.reply.next.None? {
      walk := [v];
    } else {
      PageAscends(v);
      CursorAdvances(v, t.accounts);
      NextIsAnswered(t, q);
      var rest := WalkEnds(t, v.reply.next.value);
      walk := [v] + rest;
    }
  }
}
