/**
 * The migrations: running one script inside the session's transaction
 * control and recording it in the ledger, applying every pending script, and
 * the `migration:up` and `migration:down` commands with their guards.
 */
module Migration {
  import opened Wrappers
  import opened Values
  import opened Strings
  import opened NumericOrder
  import opened Schema
  import opened Server
  import opened Catalog
  import opened PendingWalk
  import opened Db
  import opened Config

  /** The `up` and `down` exports of a migration file. */
  datatype Direction = Up | Down

  /** What running one export did: whether it completed without throwing,
      and the user schema it left behind (the statements it ran before a
      throw stay in effect unless a transaction undoes them). */
  datatype ScriptResult = ScriptResult(ok: bool, schema: set<string>)

  /** The code of the migration folder: the export of a file for a
      direction, run against the current user schema. */
  type Scripts = (string, Direction, set<string>) -> ScriptResult

  /** `getConfigDetails`: the parsed YAML of `<name>.yml` when that file
      exists, otherwise `undefined`. */
  function ConfigDetails(files: map<string, Record>, name: string): (v: Value)
    ensures v.Obj? <==> FileName(name) in files
    ensures v.Obj? ==> v.fields == files[FileName(name)]
    ensures !v.Obj? ==> v == Undefined
    ensures ValidPoolProfile(v) <==> FileName(name) in files && PoolFields(files[FileName(name)])
  {
    if FileName(name) in files then Obj(files[FileName(name)]) else Undefined
  }

  /** The ledger statement of a direction: record the id going up, forget it
      going down. */
  function LedgerStatement(id: string, dir: Direction): Statement
  {
    if dir == Up then InsertApplied(id) else DeleteApplied(id)
  }

  /** The server after `createDefaultMigrationTable`: the ledger table
      exists, empty if it had to be created. */
  function LedgerTableReady(st: ServerState): (r: ServerState)
    ensures r.tableExists
    ensures st.tableExists ==> r == st
    ensures r.schema == st.schema && r.databases == st.databases && r.openTx == st.openTx
  {
    if st.tableExists then st else st.(tableExists := true, ledger := [])
  }

  /** `runMigration` on a held connection: the export runs; if it throws,
      the rollback runs; otherwise the ledger statement runs and, if the
      driver rejects it, the rollback runs, else the commit. Rollback and
      commit act only on a transaction that is already open, since
      `beginTransaction` never opens one. */
  function RunOne(st: ServerState, scripts: Scripts, file: string, dir: Direction): ServerState
  {
    var result := scripts(file, dir, st.schema);
    var ran := st.(schema := result.schema);
    if !result.ok then RollbackState(ran)
    else
      var after := Exec(ran, LedgerStatement(IdOf(file), dir));
      if after.1 == Failed then RollbackState(after.0) else CommitState(after.0)
  }

  /** The server after `runMigration` on each of `files`, in order; a file
      that fails does not stop the ones after it. */
  function RunAll(st: ServerState, scripts: Scripts, files: seq<string>, dir: Direction): ServerState
    decreases |files|
  {
    if files == [] then st
    else RunOne(RunAll(st, scripts, files[..|files| - 1], dir), scripts, files[|files| - 1], dir)
  }

  /** `runMigration`. The export's statements reach the server through
      `db.execute`, so only while the session holds a connection; without
      one nothing reaches the server. Errors are caught and never reach the
      caller. */
  method RunMigration(s: Session, scripts: Scripts, file: string, dir: Direction)
    modifies s.server
    ensures s.held ==> s.server.state == RunOne(old(s.server.state), scripts, file, dir)
    ensures !s.held ==> s.server.state == old(s.server.state)
  {
    s.BeginTransaction();
    if !s.IsConnectionActive() {
      return;
    }
    var result := scripts(file, dir, s.server.state.schema);
    s.server.state := s.server.state.(schema := result.schema);
    if !result.ok {
      s.Rollback();
      return;
    }
    var reply := s.Execute(LedgerStatement(IdOf(file), dir));
    if reply == Failed {
      s.Rollback();
    } else {
      s.Commit();
    }
  }

  /** `createDefaultMigrationTable`: creates the ledger table when
      `SHOW TABLES LIKE` lists nothing. The reply is destructured, so the
      source needs a held connection here. */
  method EnsureLedgerTable(s: Session)
    requires s.held
    modifies s.server
    ensures s.server.state == LedgerTableReady(old(s.server.state))
  {
    var reply := s.Execute(ShowLedgerTable);
    if |reply.rows| == 0 {
      var created := s.Execute(CreateLedgerTable);
    }
  }

  /** The `for (i, j)` loop of apply-all: a file whose id equals the ledger
      row at `j` advances `j` and is skipped; every other file is run. */
  method ApplyAll(s: Session, files: seq<string>, rows: seq<string>, scripts: Scripts, dir: Direction)
    returns (attempted: seq<string>)
    requires s.held
    modifies s.server
    ensures attempted == Pending(files, rows)
    ensures s.server.state == RunAll(old(s.server.state), scripts, attempted, dir)
  {
    attempted := [];
    var i, j := 0, 0;
    while i < |files|
      invariant 0 <= j <= i <= |files| && j <= |rows|
      invariant attempted + Pending(files[i..], rows[j..]) == Pending(files, rows)
      invariant s.server.state == RunAll(old(s.server.state), scripts, attempted, dir)
    {
      assert files[i..][0] == files[i] && files[i..][1..] == files[i + 1..];
      if j < |rows| && IdOf(files[i]) == rows[j] {
        assert rows[j..][0] == rows[j] && rows[j..][1..] == rows[j + 1..];
        j := j + 1;
      } else {
        RunMigration(s, scripts, files[i], dir);
        assert (attempted + [files[i]])[..|attempted|] == attempted;
        attempted := attempted + [files[i]];
      }
      i := i + 1;
    }
  }

  /** How a command ended. `InvalidPoolId` is the `Invalid pool id` error
      thrown by the session constructor; `MissingFile` is the crash of
      revert-latest when no file carries the latest recorded id. Both skip
      the release and the pool clean-up. */
  datatype Outcome =
    | InvalidPoolId
    | InvalidMigrationId
    | AlreadyRan
    | NotRan
    | NoMigrations
    | NoPending
    | NothingToRevert
    | MissingFile(id: string)
    | Ran(files: seq<string>)

  /** What `upAction` does once the ledger table is ready. */
  function UpPlan(st: ServerState, scripts: Scripts, folder: seq<string>, id: Option<string>): (Outcome, ServerState)
  {
    match id
    case Some(x) =>
      (match FindFile(folder, x + "_")
       case None => (InvalidMigrationId, st)
       case Some(file) =>
         if IdOf(file) in st.ledger then (AlreadyRan, st)
         else (Ran([file]), RunOne(st, scripts, file, Up)))
    case None =>
      var sorted := SortById(folder);
      if sorted == [] then (NoMigrations, st)
      else
        var attempted := Pending(sorted, st.ledger);
        (if attempted == [] then NoPending else Ran(attempted), RunAll(st, scripts, attempted, Up))
  }

  /** What `downAction` does once the ledger table is ready. */
  function DownPlan(st: ServerState, scripts: Scripts, folder: seq<string>, id: Option<string>): (Outcome, ServerState)
  {
    match id
    case Some(x) =>
      (match FindFile(folder, x + "_")
       case None => (InvalidMigrationId, st)
       case Some(file) =>
         if IdOf(file) !in st.ledger then (NotRan, st)
         else (Ran([file]), RunOne(st, scripts, file, Down)))
    case None =>
      if st.ledger == [] then (NothingToRevert, st)
      else
        var latest := st.ledger[|st.ledger| - 1];
        (match FindFile(folder, latest + "_")
         case None => (MissingFile(latest), st)
         case Some(file) => (Ran([file]), RunOne(st, scripts, file, Down)))
  }

  /** The part the two commands share: read the config, create the pool,
      open a session and lease a connection, and make sure the ledger table
      exists. `null` when the session constructor throws. */
  method Connect(registry: Registry, server: Server, store: ConfigStore, name: string) returns (db: Session?)
    modifies registry, server
    ensures var cfg := ConfigDetails(store.files, name);
            if !ValidPoolProfile(cfg) then
              db == null && registry.pools == old(registry.pools) && server.state == old(server.state)
            else
              db != null && fresh(db) && db.registry == registry && db.server == server && db.held &&
              registry.pools.Keys == old(registry.pools).Keys + {registry.PoolIdOf(cfg)} &&
              server.state == LedgerTableReady(old(server.state))
    ensures registry.ended == old(registry.ended)
  {
    var configData := ConfigDetails(store.files, name);
    var poolId := registry.CreatePool(configData);
    db := OpenSession(registry, server, poolId);
    if db == null {
      return;
    }
    db.GetConnection();
    EnsureLedgerTable(db);
  }

  /** Ends a command normally: `releaseConnection` and `removePools`. */
  method Disconnect(db: Session)
    modifies db, db.registry
    ensures !db.held && db.registry.pools == map[]
    ensures db.registry.ended == old(db.registry.ended) + old(db.registry.pools).Keys
  {
    db.ReleaseConnection();
    db.registry.RemovePools();
  }

  /** The body of `upAction` once connected: with an id, runs the `up`
      export of the first file named `<id>_…` unless the ledger records its
      id; without one, runs every pending file of the catalog sorted by id. */
  method UpWith(db: Session, id: Option<string>, folder: seq<string>, scripts: Scripts) returns (outcome: Outcome)
    requires db.held && db.server.state.tableExists
    modifies db.server
    ensures (outcome, db.server.state) == UpPlan(old(db.server.state), scripts, folder, id)
  {
    if id.Some? {
      var file := FindFile(folder, id.value + "_");
      if file.None? {
        return InvalidMigrationId;
      }
      var rows := db.Execute(SelectApplied(IdOf(file.value)));
      if |rows.rows| == 1 {
        return AlreadyRan;
      }
      RunMigration(db, scripts, file.value, Up);
      return Ran([file.value]);
    }
    var files := SortById(folder);
    if |files| == 0 {
      return NoMigrations;
    }
    var rows := db.Execute(SelectAllApplied);
    var attempted := ApplyAll(db, files, rows.rows, scripts, Up);
    outcome := if attempted == [] then NoPending else Ran(attempted);
  }

  /** `upAction`: connects, runs `UpWith`, and disconnects on every path. */
  method UpAction(registry: Registry, server: Server, store: ConfigStore, name: string,
                  id: Option<string>, folder: seq<string>, scripts: Scripts) returns (outcome: Outcome)
    modifies registry, server
    ensures var cfg := ConfigDetails(store.files, name);
            if !ValidPoolProfile(cfg) then
              outcome == InvalidPoolId && registry.pools == old(registry.pools) &&
              registry.ended == old(registry.ended) && server.state == old(server.state)
            else
              (outcome, server.state) == UpPlan(LedgerTableReady(old(server.state)), scripts, folder, id) &&
              registry.pools == map[] &&
              registry.ended == old(registry.ended) + old(registry.pools).Keys + {registry.PoolIdOf(cfg)}
  {
    var db := Connect(registry, server, store, name);
    if db == null {
      return InvalidPoolId;
    }
    outcome := UpWith(db, id, folder, scripts);
    Disconnect(db);
  }

  /** The body of `downAction` once connected: with an id, runs the `down`
      export of the first file named `<id>_…` if the ledger records its id;
      without one, reverts the numerically latest recorded id. */
  method DownWith(db: Session, id: Option<string>, folder: seq<string>, scripts: Scripts) returns (outcome: Outcome)
    requires db.held && db.server.state.tableExists
    modifies db.server
    ensures (outcome, db.server.state) == DownPlan(old(db.server.state), scripts, folder, id)
  {
    if id.Some? {
      var file := FindFile(folder, id.value + "_");
      if file.None? {
        return InvalidMigrationId;
      }
      var rows := db.Execute(SelectApplied(IdOf(file.value)));
      if |rows.rows| == 0 {
        return NotRan;
      }
      RunMigration(db, scripts, file.value, Down);
      return Ran([file.value]);
    }
    var rows := db.Execute(SelectLatestApplied);
    if |rows.rows| == 0 {
      return NothingToRevert;
    }
    var file := FindFile(folder, rows.rows[0] + "_");
    if file.None? {
      return MissingFile(rows.rows[0]);
    }
    RunMigration(db, scripts, file.value, Down);
    return Ran([file.value]);
  }

  /** `downAction`: connects and runs `DownWith`; the path that finds no
      file for the latest id returns without disconnecting. */
  method DownAction(registry: Registry, server: Server, store: ConfigStore, name: string,
                    id: Option<string>, folder: seq<string>, scripts: Scripts) returns (outcome: Outcome)
    modifies registry, server
    ensures var cfg := ConfigDetails(store.files, name);
            if !ValidPoolProfile(cfg) then
              outcome == InvalidPoolId && registry.pools == old(registry.pools) &&
              registry.ended == old(registry.ended) && server.state == old(server.state)
            else
              (outcome, server.state) == DownPlan(LedgerTableReady(old(server.state)), scripts, folder, id) &&
              if outcome.MissingFile? then
                registry.pools.Keys == old(registry.pools).Keys + {registry.PoolIdOf(cfg)} &&
                registry.ended == old(registry.ended)
              else
                registry.pools == map[] &&
                registry.ended == old(registry.ended) + old(registry.pools).Keys + {registry.PoolIdOf(cfg)}
  {
    var db := Connect(registry, server, store, name);
    if db == null {
      return InvalidPoolId;
    }
    outcome := DownWith(db, id, folder, scripts);
    if !outcome.MissingFile? {
      Disconnect(db);
    }
  }
}
