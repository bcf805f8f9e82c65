/**
 * The `db:create` and `db:drop` commands: the database named by a config
 * is created or dropped on its server, after a `SHOW DATABASES LIKE` guard.
 */
module DbActions {
  import opened Wrappers
  import opened Values
  import opened Schema
  import opened Server
  import opened Db
  import opened Config
  import opened Catalog
  import opened PendingWalk
  import Migration

  datatype DbAction = Create | Drop

  /** How the command ended. `UnknownConfig` returns before any pool exists;
      `InvalidPoolId` and `DriverError` are thrown errors, which skip the
      release and the pool clean-up. */
  datatype DbOutcome = UnknownConfig | InvalidPoolId | DatabaseExists | DatabaseAbsent | DriverError | Done

  function DatabaseStatement(action: DbAction, database: string): Statement
  {
    if action == Create then CreateDatabase(database) else DropDatabase(database)
  }

  /** What `run` does: the guard counts the databases `LIKE` the name;
      exactly one blocks a create, none blocks a drop; otherwise the
      statement is sent and a driver error escapes. */
  function RunPlan(st: ServerState, action: DbAction, database: string): (DbOutcome, ServerState)
  {
    var n := |Matching(st.databases, database)|;
    if action == Create && n == 1 then (DatabaseExists, st)
    else if action == Drop && n == 0 then (DatabaseAbsent, st)
    else
      var after := Exec(st, DatabaseStatement(action, database));
      (if after.1 == Failed then DriverError else Done, after.0)
  }

  /** `run`. The guard's reply is destructured, so a held connection is
      needed. */
  method Run(action: DbAction, database: string, db: Session) returns (outcome: DbOutcome)
    requires db.held
    modifies db.server
    ensures (outcome, db.server.state) == RunPlan(old(db.server.state), action, database)
  {
    var rows := db.Execute(ShowDatabases(database));
    if action == Create && rows.n == 1 {
      return DatabaseExists;
    }
    if action == Drop && rows.n == 0 {
      return DatabaseAbsent;
    }
    var reply := db.Execute(DatabaseStatement(action, database));
    outcome := if reply == Failed then DriverError else Done;
  }

  /** The target of the command: the config's `database` field as a
      template literal writes it. */
  function Target(record: Record): string
  {
    Text(if "database" in record then record["database"] else Undefined)
  }

  /** The options the pool is created from: the config with `database`
      blanked, so that the connection selects no database. */
  function PoolOptions(record: Record): (v: Value)
    ensures v.Obj? && v.fields.Keys == record.Keys + {"database"} && v.fields["database"] == Str("")
    ensures forall k :: k in record && k != "database" ==> v.fields[k] == record[k]
  {
    Obj(record["database" := Str("")])
  }

  /** A config stored by `addAction` targets exactly the database it was
      given, and its options with `database` blanked still pass the pool
      rule, so the command goes on to `run`. */
  lemma StoredConfigTarget(options: Record)
    requires ValidConfig(Obj(options))
    ensures Target(StoredRecord(options)) == options["database"].s
    ensures ValidPoolProfile(PoolOptions(StoredRecord(options)))
  {
    StoredRecordIsPoolProfile(options);
  }

  /** `createorDropAction`. */
  method CreateOrDropAction(registry: Registry, server: Server, store: ConfigStore, name: string, action: DbAction)
    returns (outcome: DbOutcome)
    modifies registry, server
    ensures FileName(name) !in store.files ==>
              outcome == UnknownConfig && registry.pools == old(registry.pools) &&
              registry.ended == old(registry.ended) && server.state == old(server.state)
    ensures FileName(name) in store.files && !ValidPoolProfile(PoolOptions(store.files[FileName(name)])) ==>
              outcome == InvalidPoolId && registry.pools == old(registry.pools) &&
              registry.ended == old(registry.ended) && server.state == old(server.state)
    ensures FileName(name) in store.files && ValidPoolProfile(PoolOptions(store.files[FileName(name)])) ==>
              var record := store.files[FileName(name)];
              var pool := registry.PoolIdOf(PoolOptions(record));
              (outcome, server.state) == RunPlan(old(server.state), action, Target(record)) &&
              if outcome == DriverError then
                registry.pools.Keys == old(registry.pools).Keys + {pool} && registry.ended == old(registry.ended)
              else
                registry.pools == map[] && registry.ended == old(registry.ended) + old(registry.pools).Keys + {pool}
  {
    if !store.IsValidConfigName(name) {
      return UnknownConfig;
    }
    var record := store.files[FileName(name)];
    var database := Target(record);
    var poolId := registry.CreatePool(PoolOptions(record));
    var db := OpenSession(registry, server, poolId);
    if db == null {
      return InvalidPoolId;
    }
    db.GetConnection();
    outcome := Run(action, database, db);
    if outcome == DriverError {
      return;
    }
    db.ReleaseConnection();
    registry.RemovePools();
  }

  /** A name without `%` or `_` is guarded exactly: create stops only when
      the database exists, drop only when it does not, and a stop leaves the
      server alone; otherwise the server's set of databases gains or loses
      exactly that name. Only dropping the home database touches the ledger
      and the schema, and it empties them. */
  lemma LiteralNameGuards(st: ServerState, action: DbAction, database: string)
    requires '%' !in database && '_' !in database && database != []
    ensures var (o, after) := RunPlan(st, action, database);
            (action == Create ==>
               (o == DatabaseExists <==> database in st.databases) &&
               (o == Done <==> database !in st.databases) &&
               (o == Done ==> after.databases == st.databases + {database})) &&
            (action == Drop ==>
               (o == DatabaseAbsent <==> database !in st.databases) &&
               (o == Done <==> database in st.databases) &&
               (o == Done ==> after.databases == st.databases - {database})) &&
            ((o == DatabaseExists || o == DatabaseAbsent) ==> after == st) &&
            ((action == Create || database != st.home) ==>
               after.tableExists == st.tableExists && after.ledger == st.ledger && after.schema == st.schema) &&
            ((action == Drop && o == Done && database == st.home) ==>
               !after.tableExists && after.ledger == [] && after.schema == {})
  {
    forall d | d in st.databases ensures Like(d, database) <==> d == database {
      LikeLiteral(d, database);
    }
    var m := Matching(st.databases, database);
    if database in st.databases {
      assert m == {database};
    } else {
      assert m == {};
    }
  }

  /** With an empty ledger the walk attempts every file. */
  lemma {:induction false} PendingEmptyLedger(files: seq<string>)
    ensures Pending(files, []) == files
  {
    if files != [] {
      PendingEmptyLedger(files[1..]);
      assert files == [files[0]] + files[1..];
    }
  }

  /** Resetting a database with `db:drop` and `db:create` (for a name
      without wildcards) loses its ledger: the next `migration:up` without
      an id runs every file of the folder, in id order. */
  lemma DropCreateRerunsAll(st: ServerState, scripts: Migration.Scripts, folder: seq<string>)
    requires st.home in st.databases && st.home != [] && '%' !in st.home && '_' !in st.home
    ensures var dropped := RunPlan(st, Drop, st.home);
            var created := RunPlan(dropped.1, Create, st.home);
            var ready := Migration.LedgerTableReady(created.1);
            dropped.0 == Done && created.0 == Done && ready.ledger == [] && ready.schema == {} &&
            (folder != [] ==> Migration.UpPlan(ready, scripts, folder, None).0 == Migration.Ran(SortById(folder)))
  {
    LiteralNameGuards(st, Drop, st.home);
    var dropped := RunPlan(st, Drop, st.home).1;
    LiteralNameGuards(dropped, Create, st.home);
    var sorted := SortById(folder);
    PendingEmptyLedger(sorted);
    if folder != [] {
      assert |sorted| == |multiset(sorted)| == |multiset(folder)| == |folder|;
    }
  }

  /** `_` in a pattern matches any one character. */
  lemma {:induction false} LikeUnderscore(a: string, c: char, b: string)
    requires '%' !in a && '%' !in b
    ensures Like(a + [c] + b, a + "_" + b)
    decreases |a|
  {
    if a == [] {
      assert ([c] + b)[1..] == b && ("_" + b)[1..] == b;
      assert ("_" + b)[0] == '_';
      LikeSelf(b);
    } else {
      LikeUnderscore(a[1..], c, b);
      assert (a + [c] + b)[1..] == a[1..] + [c] + b;
      assert (a + "_" + b)[1..] == a[1..] + "_" + b;
      assert (a + "_" + b)[0] == a[0] && (a + [c] + b)[0] == a[0];
    }
  }

  /** A name with `_` in it, such as `my_db`, is refused as already
      existing when only a database that differs in that position, such as
      `myxdb`, is present. */
  lemma UnderscoreFalseAlarm(st: ServerState, a: string, c: char, b: string)
    requires '%' !in a && '%' !in b && c != '_'
    requires st.databases == {a + [c] + b}
    ensures a + "_" + b !in st.databases
    ensures RunPlan(st, Create, a + "_" + b) == (DatabaseExists, st)
  {
    LikeUnderscore(a, c, b);
    assert (a + [c] + b)[|a|] == c && (a + "_" + b)[|a|] == '_';
    assert Matching(st.databases, a + "_" + b) == {a + [c] + b};
  }
}
