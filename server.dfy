/**
 * The database server the tool talks to, as an abstract state: whether the
 * ledger table `schema_migrations` exists, the ids it holds, the user schema
 * that migration scripts change, the databases on the server, the database
 * that holds the ledger and the schema, and the snapshot of an open
 * transaction.
 */
module Server {
  import opened Wrappers
  import opened Strings
  import opened NumericOrder

  const LedgerTable := "schema_migrations"

  /** The ledger ids in ascending numeric order, without repetition (the
      table's primary key). */
  predicate LedgerSorted(l: seq<string>)
  {
    forall i, j :: 0 <= i < j < |l| ==> NumLess(l[i], l[j])
  }

  /** What a transaction would roll back to. */
  datatype Snapshot = Snapshot(ledger: seq<string>, schema: set<string>)

  /** `home` is the database a config names: the migration commands' pool
      selects it, so the ledger table and the user schema live in it. */
  datatype ServerState = ServerState(
    tableExists: bool,
    ledger: seq<string>,
    schema: set<string>,
    databases: set<string>,
    home: string,
    openTx: Option<Snapshot>)
  {
    predicate Valid()
    {
      LedgerSorted(ledger) && (!tableExists ==> ledger == []) &&
      (openTx.Some? ==> LedgerSorted(openTx.value.ledger))
    }
  }

  /** The statements the tool issues. */
  datatype Statement =
    | ShowLedgerTable                 // SHOW TABLES LIKE 'schema_migrations'
    | CreateLedgerTable               // CREATE TABLE schema_migrations (id ... PRIMARY KEY)
    | SelectApplied(id: string)       // SELECT 1 AS one ... WHERE id = :id
    | SelectAllApplied                // SELECT id ... ORDER BY ID ASC
    | SelectLatestApplied             // SELECT id ... ORDER BY id DESC LIMIT 1
    | InsertApplied(id: string)       // INSERT INTO schema_migrations (id) VALUES(:id)
    | DeleteApplied(id: string)       // DELETE FROM schema_migrations WHERE id = :id
    | SelectInTransaction             // SELECT @@in_transaction
    | ShowDatabases(pattern: string)  // SHOW DATABASES LIKE '<pattern>'
    | CreateDatabase(name: string)    // create DATABASE <name>;
    | DropDatabase(name: string)      // drop DATABASE <name>;

  /** A statement's outcome: the rows it returned, the number of rows, or the
      driver error it raised. `NoResult` is what `execute` gives back without
      a connection. */
  datatype Reply = NoResult | Rows(rows: seq<string>) | Count(n: nat) | Failed

  /** The ledger with `x` added in its place. */
  function InsertSorted(l: seq<string>, x: string): (r: seq<string>)
    ensures multiset(r) == multiset(l) + multiset{x}
  {
    if l == [] || NumLess(x, l[0]) then [x] + l
    else
      assert l == [l[0]] + l[1..];
      [l[0]] + InsertSorted(l[1..], x)
  }

  lemma {:induction false} InsertSortedKeepsOrder(l: seq<string>, x: string)
    requires LedgerSorted(l) && x !in l
    ensures LedgerSorted(InsertSorted(l, x))
  {
    var r := InsertSorted(l, x);
    if l == [] || NumLess(x, l[0]) {
      forall i, j | 0 <= i < j < |r| ensures NumLess(r[i], r[j]) {
        if i == 0 {
          if j > 1 { NumLessTransitive(x, l[0], l[j - 1]); }
        } else {
          assert r[i] == l[i - 1] && r[j] == l[j - 1];
        }
      }
    } else {
      var tail := l[1..];
      InsertSortedKeepsOrder(tail, x);
      NumLessTotal(x, l[0]);
      var rest := InsertSorted(tail, x);
      forall k | 0 <= k < |rest| ensures NumLess(l[0], rest[k]) {
        assert rest[k] in multiset(rest);
        if rest[k] != x {
          assert rest[k] in multiset(tail);
          var m :| 0 <= m < |tail| && tail[m] == rest[k];
          assert l[m + 1] == rest[k];
        }
      }
      forall i, j | 0 <= i < j < |r| ensures NumLess(r[i], r[j]) {
        assert r[j] == rest[j - 1];
        if i > 0 { assert r[i] == rest[i - 1]; }
      }
    }
  }

  /** The ledger without `x`. */
  function Remove(l: seq<string>, x: string): (r: seq<string>)
    ensures forall y :: y in r <==> y in l && y != x
    ensures |r| <= |l|
  {
    if l == [] then []
    else if l[0] == x then Remove(l[1..], x)
    else [l[0]] + Remove(l[1..], x)
  }

  lemma {:induction false} RemoveKeepsOrder(l: seq<string>, x: string)
    requires LedgerSorted(l)
    ensures LedgerSorted(Remove(l, x))
  {
    if l != [] {
      var tail := l[1..];
      assert LedgerSorted(tail) by {
        forall i, j | 0 <= i < j < |tail| ensures NumLess(tail[i], tail[j]) {
          assert tail[i] == l[i + 1] && tail[j] == l[j + 1];
        }
      }
      RemoveKeepsOrder(tail, x);
      if l[0] != x {
        var rest := Remove(tail, x);
        var r := [l[0]] + rest;
        forall i, j | 0 <= i < j < |r| ensures NumLess(r[i], r[j]) {
          assert r[j] == rest[j - 1] && rest[j - 1] in l[1..];
          var m :| 0 <= m < |tail| && tail[m] == r[j];
          assert l[m + 1] == r[j];
          if i > 0 { assert r[i] == rest[i - 1]; }
        }
      }
    }
  }

  /** SQL `s LIKE p` without escapes: `%` matches any run of characters and
      `_` any single character. */
  predicate Like(s: string, p: string)
    decreases |s| + |p|
  {
    if p == [] then s == []
    else if p[0] == '%' then Like(s, p[1..]) || (s != [] && Like(s[1..], p))
    else s != [] && (p[0] == '_' || p[0] == s[0]) && Like(s[1..], p[1..])
  }

  /** Every name matches itself as a pattern. */
  lemma {:induction false} LikeSelf(s: string)
    ensures Like(s, s)
    decreases |s|
  {
    if s != [] {
      LikeSelf(s[1..]);
      if s[0] == '%' {
        LikePercentSelf(s);
      }
    }
  }

  lemma {:induction false} LikePercentSelf(s: string)
    requires s != [] && s[0] == '%' && Like(s[1..], s[1..])
    ensures Like(s, s)
  {
  }

  /** A pattern without wildcards matches only itself. */
  lemma {:induction false} LikeLiteral(s: string, p: string)
    requires '%' !in p && '_' !in p
    ensures Like(s, p) <==> s == p
  {
    if p != [] && s != [] {
      LikeLiteral(s[1..], p[1..]);
      if s[0] == p[0] && s[1..] == p[1..] {
        assert s == [s[0]] + s[1..] && p == [p[0]] + p[1..];
      }
    }
  }

  /** The databases `SHOW DATABASES LIKE pattern` lists. */
  function Matching(dbs: set<string>, pattern: string): set<string>
  {
    set d | d in dbs && Like(d, pattern)
  }

  function CommitState(st: ServerState): ServerState
  {
    st.(openTx := None)
  }

  function RollbackState(st: ServerState): ServerState
  {
    if st.openTx.None? then st
    else st.(ledger := st.openTx.value.ledger, schema := st.openTx.value.schema, openTx := None)
  }

  /** What the server does with one statement. A database statement with an
      empty name is a syntax error. Dropping the home database takes the
      ledger table, the ledger and the user schema with it. */
  function Exec(st: ServerState, stmt: Statement): (ServerState, Reply)
  {
    match stmt
    case ShowLedgerTable => (st, Rows(if st.tableExists then [LedgerTable] else []))
    case CreateLedgerTable =>
      if st.tableExists then (st, Failed) else (st.(tableExists := true, ledger := []), Rows([]))
    case SelectApplied(id) =>
      if !st.tableExists then (st, Failed) else (st, Rows(if id in st.ledger then ["1"] else []))
    case SelectAllApplied =>
      if !st.tableExists then (st, Failed) else (st, Rows(st.ledger))
    case SelectLatestApplied =>
      if !st.tableExists then (st, Failed)
      else (st, Rows(if st.ledger == [] then [] else [st.ledger[|st.ledger| - 1]]))
    case InsertApplied(id) =>
      if !st.tableExists || id in st.ledger then (st, Failed)
      else (st.(ledger := InsertSorted(st.ledger, id)), Rows([]))
    case DeleteApplied(id) =>
      if !st.tableExists then (st, Failed) else (st.(ledger := Remove(st.ledger, id)), Rows([]))
    case SelectInTransaction => (st, Rows([if st.openTx.Some? then "1" else "0"]))
    case ShowDatabases(pattern) => (st, Count(|Matching(st.databases, pattern)|))
    case CreateDatabase(name) =>
      if name == [] || name in st.databases then (st, Failed)
      else (st.(databases := st.databases + {name}), Rows([]))
    case DropDatabase(name) =>
      if name == [] || name !in st.databases then (st, Failed)
      else if name == st.home then
        (st.(databases := st.databases - {name}, tableExists := false, ledger := [], schema := {}), Rows([]))
      else (st.(databases := st.databases - {name}), Rows([]))
  }

  /** Every statement keeps the ledger sorted and free of repetitions. */
  lemma ExecKeepsValid(st: ServerState, stmt: Statement)
    requires st.Valid()
    ensures Exec(st, stmt).0.Valid()
  {
    match stmt
    case InsertApplied(id) =>
      if st.tableExists && id !in st.ledger { InsertSortedKeepsOrder(st.ledger, id); }
    case DeleteApplied(id) =>
      if st.tableExists { RemoveKeepsOrder(st.ledger, id); }
    case _ =>
  }

  /** The server, whose state the statements change in place. */
  class Server {
    var state: ServerState

    constructor (initial: ServerState)
      ensures state == initial
    {
      state := initial;
    }
  }
}
