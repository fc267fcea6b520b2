/** The CHECKs of the schema, read as the regular expressions it writes them in: what each
    column takes, which column a refusal names, and that no run of statements leaves a row
    that breaks one. */
module Checks {
  import opened Text
  import opened Book
  import opened Engine
  import Invariant

  // ------------------------------------------------------------ regular expressions

  /** One bracket expression and how often it is repeated: `[ranges]{least,most}`. */
  datatype Piece = Piece(ranges: seq<(char, char)>, least: nat, most: nat)

  predicate In(c: char, ranges: seq<(char, char)>) { exists r | r in ranges :: r.0 <= c <= r.1 }

  ghost predicate Takes(s: string, piece: Piece, n: nat) {
    n <= |s| && piece.least <= n <= piece.most && forall i :: 0 <= i < n ==> In(s[i], piece.ranges)
  }

  /** Anchored at both ends. */
  ghost predicate Fits(s: string, pattern: seq<Piece>)
    decreases |pattern|
  {
    if pattern == [] then s == ""
    else exists n: nat :: Takes(s, pattern[0], n) && Fits(s[n..], pattern[1..])
  }

  const LETTER: seq<(char, char)> := [('a', 'z')]
  const LETTERS: seq<(char, char)> := [('a', 'z'), ('0', '9'), ('_', '_'), ('.', '.')]
  const CAPITALS: seq<(char, char)> := [('A', 'Z')]
  const GRAPH: seq<(char, char)> := [('!', '~')]

  const CODE: seq<Piece> := [Piece(LETTER, 1, 1), Piece(LETTERS, 0, 63)]
  const CURRENCY: seq<Piece> := [Piece(CAPITALS, 3, 3)]
  const KEY: seq<Piece> := [Piece(GRAPH, 16, 255)]

  const SPACES: set<char> := {' ', '\t', '\n', '\U{000B}', '\U{000C}', '\r'}
  const CONTROLS: seq<(char, char)> := [('\U{0000}', '\U{001F}'), ('\U{007F}', '\U{007F}')]

  /** NOT is_blank, NOT has_control_character, and no longer than `most`. */
  ghost predicate Words(s: string, most: nat) {
    |s| <= most && (exists i :: 0 <= i < |s| && s[i] !in SPACES) && forall i :: 0 <= i < |s| ==> !In(s[i], CONTROLS)
  }

  /** A pattern of one piece is asked of the whole text. */
  lemma OnePiece(s: string, piece: Piece)
    ensures Fits(s, [piece]) <==> Takes(s, piece, |s|)
  {
    assert [piece][1..] == [];
    forall n: nat | n <= |s| ensures Fits(s[n..], []) <==> n == |s| {}
    if Takes(s, piece, |s|) { assert Fits(s[|s|..], [piece][1..]); }
  }

  lemma CodeFits(s: string)
    ensures CodeShape(s) <==> Fits(s, CODE)
  {
    var first, rest := Piece(LETTER, 1, 1), Piece(LETTERS, 0, 63);
    assert CODE[1..] == [rest];
    forall c: char ensures In(c, LETTER) <==> Within(c, 'a', 'z') { assert ('a', 'z') in LETTER; }
    forall c: char ensures In(c, LETTERS) <==> Within(c, 'a', 'z') || Within(c, '0', '9') || c == '_' || c == '.' {
      assert LETTERS[0] in LETTERS && LETTERS[1] in LETTERS && LETTERS[2] in LETTERS && LETTERS[3] in LETTERS;
    }
    if s != "" {
      OnePiece(s[1..], rest);
      assert forall i :: 1 <= i < |s| ==> s[1..][i - 1] == s[i];
      if CodeShape(s) {
        assert Takes(s, first, 1);
      }
      if Fits(s, CODE) {
        var n: nat :| Takes(s, first, n) && Fits(s[n..], [rest]);
        assert n == 1;
      }
    }
  }

  lemma CurrencyFits(s: string)
    ensures CurrencyShape(s) <==> Fits(s, CURRENCY)
  {
    OnePiece(s, Piece(CAPITALS, 3, 3));
    forall c: char ensures In(c, CAPITALS) <==> Within(c, 'A', 'Z') { assert ('A', 'Z') in CAPITALS; }
  }

  lemma KeyFits(s: string)
    ensures KeyShape(s) <==> Fits(s, KEY)
  {
    OnePiece(s, Piece(GRAPH, 16, 255));
    forall c: char ensures In(c, GRAPH) <==> Within(c, '!', '~') { assert ('!', '~') in GRAPH; }
  }

  lemma WordsFit(s: string, most: nat)
    ensures WordsShape(s, most) <==> Words(s, most)
  {
    forall c: char ensures In(c, CONTROLS) <==> IsControl(c) {
      assert CONTROLS[0] in CONTROLS && CONTROLS[1] in CONTROLS;
    }
    forall c: char ensures c in SPACES <==> IsSpace(c) {}
  }

  // -------------------------------------------------------------- the column refused

  /** What a row asks of its columns, in the order the constraints are named. */
  type Columns = seq<(string, bool)>

  ghost predicate AllFit(columns: Columns) { forall i :: 0 <= i < |columns| ==> columns[i].1 }

  ghost predicate UnfitAt(column: string, columns: Columns, i: nat) {
    i < |columns| && columns[i] == (column, false) && forall j :: 0 <= j < i ==> columns[j].1
  }

  /** `column` is the first of them that does not fit. */
  ghost predicate FirstUnfit(column: string, columns: Columns) { exists i: nat :: UnfitAt(column, columns, i) }

  ghost function AccountColumns(code: string, name: string, currency: string): Columns {
    [("code", Fits(code, CODE)), ("currency", Fits(currency, CURRENCY)), ("name", Words(name, 100))]
  }

  ghost function TransactionColumns(currency: string, description: string): Columns {
    [("currency", Fits(currency, CURRENCY)), ("description", Words(description, 500))]
  }

  ghost function KeyColumns(key: string, hash: Digest): Columns {
    [("key", Fits(key, KEY)), ("request_hash", |hash| == 32)]
  }

  /** A check answers nothing of columns that all fit, and otherwise the first that does not. */
  ghost predicate Names(check: Option<string>, columns: Columns) {
    if AllFit(columns) then check.None? else check.Some? && FirstUnfit(check.value, columns)
  }

  lemma AccountChecked(code: string, name: string, currency: string)
    ensures Names(AccountCheck(code, name, currency), AccountColumns(code, name, currency))
  {
    hide CodeShape, CurrencyShape, WordsShape, Fits, Words;
    CodeFits(code);
    CurrencyFits(currency);
    WordsFit(name, 100);
    var check, columns := AccountCheck(code, name, currency), AccountColumns(code, name, currency);
    if check.Some? {
      var i := if check == Some("code") then 0 else if check == Some("currency") then 1 else 2;
      assert UnfitAt(check.value, columns, i) && !columns[i].1;
    }
  }

  lemma TransactionChecked(currency: string, description: string)
    ensures Names(TransactionCheck(currency, description), TransactionColumns(currency, description))
  {
    hide CurrencyShape, WordsShape, Fits, Words;
    CurrencyFits(currency);
    WordsFit(description, 500);
    var check, columns := TransactionCheck(currency, description), TransactionColumns(currency, description);
    if check.Some? {
      var i := if check == Some("currency") then 0 else 1;
      assert UnfitAt(check.value, columns, i) && !columns[i].1;
    }
  }

  lemma KeyChecked(key: string, hash: Digest)
    ensures Names(KeyCheck(key, hash), KeyColumns(key, hash))
  {
    hide KeyShape, Fits;
    KeyFits(key);
    var check, columns := KeyCheck(key, hash), KeyColumns(key, hash);
    if check.Some? {
      var i := if check == Some("key") then 0 else 1;
      assert UnfitAt(check.value, columns, i) && !columns[i].1;
    }
  }

  // --------------------------------------------------------------- over any statements

  ghost predicate RowsFit(t: Tables) {
    && (forall a :: a in t.accounts ==> AllFit(AccountColumns(a.code, a.name, a.currency)))
    && (forall x :: x in t.transactions ==> AllFit(TransactionColumns(x.currency, x.description)))
    && (forall k :: k in t.keys ==> AllFit(KeyColumns(k, t.keys[k].hash)))
  }

  ghost predicate SessionFits(s: Session) {
    RowsFit(s.state.tables) && forall v :: v in s.saves ==> RowsFit(v.state.tables)
  }

  /** Firing events changes no row but those of balance_checks. */
  lemma SettleFits(st: State)
    requires RowsFit(st.tables)
    ensures Settle(st).Ok? ==> RowsFit(Settle(st).state.tables)
  {
    hide AllFit, AccountColumns, TransactionColumns, KeyColumns;
    Invariant.FireMeans(st.tables, st.pending, st.immediate);
  }

  lemma KeyOutcomeFits(s: Session, q: Stmt)
    requires RowsFit(s.state.tables) && (q.InsertKey? || q.RecordResult? || q.UpdateKey?) && ExecOutcome(s, q).Ok?
    ensures RowsFit(ExecOutcome(s, q).state.tables)
  {
    hide AllFit, AccountColumns, TransactionColumns, KeyColumns, KeyCheck, Settle;
    var st := s.state;
    SettleFits(st);
    if q.InsertKey? {
      KeyChecked(q.key, q.hash);
      SettleFits(WriteKey(st, q.key, KeyRow(q.hash, None)));
    } else if q.key in st.tables.keys {
      SettleFits(WriteKey(st, q.key,
        KeyRow(st.tables.keys[q.key].hash, if q.RecordResult? then Some(q.transaction) else q.result)));
    }
  }

  lemma OutcomeFits(s: Session, q: Stmt)
    requires RowsFit(s.state.tables) && !(q.Savepoint? || q.RollbackTo? || q.Release?) && ExecOutcome(s, q).Ok?
    ensures RowsFit(ExecOutcome(s, q).state.tables)
  {
    hide AllFit, AccountColumns, TransactionColumns, KeyColumns, AccountCheck, TransactionCheck, KeyCheck, Settle;
    var st := s.state;
    match q
    case SetConstraints(names, immediately) =>
      if immediately { SettleFits(st.(immediate := st.immediate + names)); }
    case InsertAccount(code, name, kind, currency) =>
      AccountChecked(code, name, currency);
      var row := Account(s.supply.account, code, name, KindOf(kind).value, currency);
      SettleFits(st.(tables := st.tables.(accounts := st.tables.accounts + [row])));
    case InsertTransaction(currency, description, occurredAt) =>
      TransactionChecked(currency, description);
      var row := Transaction(s.supply.transaction, currency, description,
                             if occurredAt.Some? then occurredAt.value else s.now);
      SettleFits(Invariant.WithTransaction(st, row));
    case InsertPosting(transaction, code, amount) =>
      var account := FindAccount(st.tables.accounts, code).value;
      SettleFits(Invariant.WithPosting(st,
        Posting(s.supply.posting, transaction, account.id, account.currency, amount)));
    case MutatePosting(_) => SettleFits(st);
    case MutateTransaction(_) => SettleFits(st);
    case _ => KeyOutcomeFits(s, q);
  }

  /** Whatever statements are sent, taken or refused, every account, transaction and key
      there is, in the tables and in every savepoint, meets its CHECKs. */
  lemma {:induction false} RunFits(s: Session, qs: seq<Stmt>)
    requires SessionFits(s)
    ensures SessionFits(Run(s, qs))
  {
    hide RowsFit;
    if qs == [] {
    } else {
      var before, q := Run(s, qs[..|qs| - 1]), qs[|qs| - 1];
      RunFits(s, qs[..|qs| - 1]);
      if !(q.Savepoint? || q.RollbackTo? || q.Release?) && !before.aborted && ExecOutcome(before, q).Ok? {
        OutcomeFits(before, q);
      }
    }
  }

  // ---------------------------------------------------------------------- append-only

  /** A row that is there, and the result of a settled key, cannot be changed by the next
      statement, and the refusal says why. */
  lemma NextIsRefused(t: Tables, s: Session)
    requires Invariant.Extends(t, s.state.tables) && !s.aborted
    ensures Exec(s, Truncate).1 == Raised(AppendOnly)
    ensures forall p :: p in t.postings ==> Exec(s, MutatePosting(p.id)).1 == Raised(AppendOnly)
    ensures forall x :: x in t.transactions ==> Exec(s, MutateTransaction(x.id)).1 == Raised(AppendOnly)
    ensures forall k, hash, result :: k in t.keys && t.keys[k].transaction.Some? ==>
      Exec(s, UpdateKey(k, hash, result)).1 == Raised(AlreadySettled)
  {
    hide Settle;
    forall x | x in t.transactions ensures FindTransaction(s.state.tables.transactions, x.id).Some? {
      assert x in s.state.tables.transactions;
    }
    forall p | p in t.postings ensures p in s.state.tables.postings {}
  }

  /** So what was there when a transaction began cannot be touched in it: after any
      statements, an update or a delete of such a row, a TRUNCATE, and any update of a key
      then settled, is refused for that very reason. */
  lemma HistoryIsRefused(t: Tables, s: Session, qs: seq<Stmt>)
    requires Invariant.Grown(t, s)
    ensures var later := Run(s, qs);
      !later.aborted ==>
        && Exec(later, Truncate).1 == Raised(AppendOnly)
        && (forall p :: p in t.postings ==> Exec(later, MutatePosting(p.id)).1 == Raised(AppendOnly))
        && (forall x :: x in t.transactions ==> Exec(later, MutateTransaction(x.id)).1 == Raised(AppendOnly))
        && (forall k, hash, result :: k in t.keys && t.keys[k].transaction.Some? ==>
              Exec(later, UpdateKey(k, hash, result)).1 == Raised(AlreadySettled))
  {
    hide Exec, Run, Invariant.Extends;
    Invariant.RunExtends(t, s, qs);
    if !Run(s, qs).aborted { NextIsRefused(t, Run(s, qs)); }
  }
}
