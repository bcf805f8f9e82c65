# db-migrate core, modelled in Dafny

This project models the migration engine of `db-migrate`, a command-line tool
that applies and reverts versioned MySQL schema migrations and keeps their ids
in a ledger table, `schema_migrations`. The model covers five parts:

- **The catalog and runner** (`lib/actions/migration.js`):
  - the 17-digit UTC stamp and the sanitised file name of a new migration;
  - the id of a file, which is the text before its first `_`;
  - sorting the folder by id, and finding a file by id prefix;
  - creating the ledger table;
  - `runMigration` with its transaction calls;
  - the `for (i, j)` merge walk of apply-all;
  - the guards of `migration:up` / `migration:down`, by id and without one.
- **The pool registry and session** (`lib/db.class.js`):
  - the static `#pools` map, a class whose methods update it in place;
  - the `DB` instance holding at most one leased connection;
  - guarded `execute`, `commit` and `rollback`, and the status query `SELECT @@in_transaction`.
- **The profile rules** (`lib/schema.js`): the `config_name`, `db#pool` and `config` schemas, as predicates over JavaScript values.
- **The named config store** (`lib/actions/config.js`): a map from `<name>.yml` to the record its YAML parses to. It has add-if-absent, list and remove-if-present.
- **Create and drop database** (`lib/actions/db.js`): the `SHOW DATABASES LIKE` guard, the blanked `database` field, and the statement that follows.

The database server is an abstract state (`Server.ServerState`): whether the ledger table exists, the ledger ids in ascending numeric order, the user schema that scripts change, the databases on the server, the home database that holds the ledger table and the schema (the config's `database`, which the migration pool selects), and the snapshot of an open transaction. Migration scripts are an injected function. It takes a file, a direction and the current schema, and gives back whether the export completed and the schema it left.

Files:
- wrappers.dfy: `Option`.
- values.dfy: JavaScript values, `Number()` and template-literal text.
- strings.dfy: JavaScript's `<` on strings, zero-padded digits, and the numeric order of `bigint` ids.
- catalog.dfy: stamps, file names, ids, sorting, lookup, and the pending walk.
- server.dfy: the server state, its statements and `LIKE`.
- schema.dfy: the profile rules.
- db.dfy: the registry and session classes.
- config.dfy: the config store.
- `migration.dfy` and `migration_facts.dfy`: the runner and its properties.
- dbaction.dfy: create and drop database.

## Where the code departs from its evident intent

The model follows the code in each case.

- `#isConnectionActive` (lib/db.class.js:133-137) passes a function to `indexOf`, which never finds it. Only `#con !== null` decides (`Db.Session.IsConnectionActive`).
- `beginTransaction` (lib/db.class.js:177-182) tests `!this.#inTransaction()` on a Promise that is not awaited. A Promise is truthy, so the negation is always false and the driver's `beginTransaction` is never called: no migration runs inside a transaction the tool opened.
  - Each statement autocommits. The `commit` and `rollback` after a script act only on a transaction that was already open (`Db.Session.BeginTransaction`, `Migration.RunOne`).
  - A script that fails part-way keeps the changes it made before it threw, although `runMigration` wraps the script and its ledger statement in `beginTransaction`, `commit` and `rollback` (lib/actions/migration.js:79-96), evidently to make one migration atomic (`MigrationFacts.RunOneFailureKeepsPartialWork`).
- `runMigration` (lib/actions/migration.js:95-97) catches every error and never rethrows. Apply-all attempts every pending file, even after one fails: with A < B < C pending and B failing, A and C are recorded (`MigrationFacts.MiddleFailureDoesNotStop`).
- The profile rules spell the lower bounds `minium` (lib/schema.js:16, :30), with the values 0 for `port` and 1 for `connectionLimit`. The validator does not know that keyword, so neither bound holds, and `host` may be empty (`Schema.NoLowerBounds`, `Config.NegativePortAccepted`).
- A ledger row that no remaining catalog file matches stops the ledger row index; examples are a row below every remaining id, or the id of a deleted file. Later recorded files are then attempted again: their scripts re-run and their inserts fail on the primary key (`PendingWalk.StrayRowReattempts`, `MigrationFacts.RunOneRecordedUpReruns`). A recorded id that merely skips a catalog file does not stop it (`PendingWalk.NonPrefixLedger`).
- `--id x` finds the first file named `x_…`, but the ledger is asked about that file's own id, the text before its first `_` (lib/actions/migration.js:123-126, :192-195). For an `x` with `_` in it the two differ: with `a` recorded, `migration:up --id a_b` reports `a_b_c` as already ran (`MigrationFacts.UpById`, `MigrationFacts.UnderscoreIdAsksFileId`).
- `SHOW DATABASES LIKE '<name>'` treats `_` and `%` in the name as wildcards. `db:create my_db` is refused as existing when only `myxdb` is present (`DbActions.UnderscoreFalseAlarm`).

## Model

| member | source | states |
|---|---|---|
| `Values.Text` | lib/actions/db.js:12-22 | the text a template literal writes for a value (a string as itself, an integer in decimal, `undefined` for a missing field); `DbActions.StoredConfigTarget` proves a stored config's target is its database name |
| `Values.Number` | lib/actions/config.js:41-46 | `Number()` gives an integer or not-a-number; an integer is unchanged and a string of digits becomes its decimal value |
| `Strings.LessIrreflexive` | lib/actions/migration.js:137-141 | the `<` the sort comparator uses never holds between equal ids |
| `Strings.LessTransitive` | lib/actions/migration.js:137-141 | `<` on id strings is transitive |
| `Strings.LessTotal` | lib/actions/migration.js:137-141 | any two distinct id strings are ordered one way by `<` |
| `Strings.LessAsymmetric` | lib/actions/migration.js:137-141 | `<` never holds in both directions |
| `Strings.Pad` | lib/actions/migration.js:19 | a zero-padded stamp field has exactly its width, in digits |
| `Strings.PadInjective` | lib/actions/migration.js:19 | two values that fit a width pad to the same text only if they are equal |
| `Strings.PadLess` | lib/actions/migration.js:19 | padded fields compare as strings exactly as the numbers compare |
| `NumericOrder.NumLessIrreflexive` | lib/actions/migration.js:151 | the numeric order of `bigint` ids is irreflexive |
| `NumericOrder.NumLessTransitive` | lib/actions/migration.js:151 | it is transitive |
| `NumericOrder.NumLessTotal` | lib/actions/migration.js:151 | it orders any two distinct ids |
| `Catalog.Stamp` | lib/actions/migration.js:18-20 | `YYYYMMDDHHmmssSSS` is made only of digits |
| `Catalog.PadFieldsOrder` | lib/actions/migration.js:18-20 | fixed-width fields concatenated compare as strings exactly as the field tuples compare lexicographically, and are equal only for equal tuples |
| `Catalog.FieldsFit` | lib/actions/migration.js:18-20 | each calendar field of a valid time fits its width |
| `Catalog.StampShape` | lib/actions/migration.js:18-20 | a stamp is 17 digits and holds no `_` |
| `Catalog.StampOrder` | lib/actions/migration.js:18-20 | one stamp is string-smaller than another exactly when its time is earlier, and stamps are equal only for equal times |
| `Catalog.Sanitise` | lib/actions/migration.js:56 | `replace(/\W/g, '_')` keeps the length, leaves only word characters, keeps every word character and turns every other character into `_` |
| `Catalog.SanitiseIdempotent` | lib/actions/migration.js:56 | sanitising twice is sanitising once, and a name of word characters is unchanged |
| `Catalog.MigrationFileName` | lib/actions/migration.js:56 | the name of a new file, `<stamp>_<name with non-word characters replaced by _>.js`; `Catalog.CreatedFileName` proves its shape and that its id is the stamp |
| `Catalog.CreatedFileName` | lib/actions/migration.js:55-56 | a new file is named `<stamp>_<sanitised name>.js`, has length 21 plus the name's, and its id is exactly the stamp |
| `Catalog.IdOf` | lib/actions/migration.js:76 | `split('_')[0]` is a prefix of the file name without `_`, followed by `_` when it is shorter than the name |
| `Catalog.IdOfPrefix` | lib/actions/migration.js:76 | the id of `<id>_<rest>` is `<id>` when `<id>` has no `_` |
| `Catalog.IdOfStartsWith` | lib/actions/migration.js:115 | a file found by the prefix `<id>_` has that id |
| `Catalog.InsertByIdSorted` | lib/actions/migration.js:137-141 | inserting a file into a list sorted by id keeps it sorted |
| `Catalog.SortById` | lib/actions/migration.js:137-141 | the sorted folder is a permutation of the folder, in ascending id order |
| `Catalog.FindIndex` | lib/actions/migration.js:115 | the position found is the first whose file starts with the prefix; nothing is found only when no file does |
| `Catalog.FindFile` | lib/actions/migration.js:115 | `find` gives the first file starting with the prefix, or nothing exactly when none does |
| `PendingWalk.Pending` | lib/actions/migration.js:152-162 | the files the walk runs are drawn from the catalog and are no more than it |
| `PendingWalk.PendingSorted` | lib/actions/migration.js:152-162 | on a catalog sorted by id, the files run are in ascending id order |
| `PendingWalk.UnrecordedAttempted` | lib/actions/migration.js:152-162 | every file whose id the ledger lacks is run, however the ledger is ordered |
| `PendingWalk.PendingExact` | lib/actions/migration.js:152-158 | when the ledger is a subsequence of the distinct catalog ids, exactly the unrecorded files are run |
| `PendingWalk.SortedLedgerIsSubsequence` | lib/actions/migration.js:151-158 | an increasing ledger whose ids all appear in an increasing catalog is a subsequence of it |
| `PendingWalk.ConsistentLedgerPending` | lib/actions/migration.js:151-158 | an increasing ledger of catalog ids makes the walk run exactly the unrecorded files |
| `PendingWalk.NonPrefixLedger` | lib/actions/migration.js:152-158 | ledger A, C against catalog A, B, C runs only B |
| `PendingWalk.StrayRowReattempts` | lib/actions/migration.js:152-158 | a ledger row below every catalog id stops the ledger row index, so a recorded file is run again |
| `Server.InsertSorted` | lib/actions/migration.js:84-86 | recording an id adds exactly one occurrence of it to the ledger |
| `Server.InsertSortedKeepsOrder` | lib/actions/migration.js:34-37 | a new id keeps the primary-key ledger in ascending order |
| `Server.Remove` | lib/actions/migration.js:88-90 | deleting an id leaves every other id and only those |
| `Server.RemoveKeepsOrder` | lib/actions/migration.js:34-37 | deleting keeps the ledger in ascending order |
| `Server.Exec` | lib/actions/migration.js:31-37 | the server's answer to each statement the tool sends (the ledger table check and creation, the ledger insert, delete and selects, the transaction calls, `SHOW DATABASES LIKE`, create and drop database, where dropping the home database takes the ledger table and the schema with it); `Server.ExecKeepsValid` proves none breaks the ledger invariant |
| `Server.ExecKeepsValid` | lib/actions/migration.js:34-37 | no statement the tool sends breaks the ledger's order or its primary key |
| `Server.LikeSelf` | lib/actions/db.js:12 | every name matches itself as a `LIKE` pattern |
| `Server.LikeLiteral` | lib/actions/db.js:12 | a pattern without `%` or `_` matches only itself |
| `Schema.IsConfigName` | lib/schema.js:5-8 | `config_name`: a non-empty string over `[a-z0-9-_]`; `Schema.ConfigNameIsPlain` proves it holds no `/` or `.` |
| `Schema.ValidPoolProfile` | lib/schema.js:10-32 | `db#pool`: an object whose six keys have the declared types, with `port` at most 65535 and no lower bounds; `Schema.PoolProfileHasAllKeys` and `Schema.NoLowerBounds` state its consequences |
| `Schema.ValidConfig` | lib/schema.js:34-45 | `config`: a pool profile with a valid `name` as well; `Schema.ConfigIsPoolProfile` proves it implies `db#pool` |
| `Schema.PoolProfileHasAllKeys` | lib/schema.js:47-51 | a valid pool profile carries host, port, user, password, database and connectionLimit |
| `Schema.ConfigIsPoolProfile` | lib/schema.js:34-45 | every valid config is a valid pool profile |
| `Schema.NoLowerBounds` | lib/schema.js:10-32 | any port up to 65535, negative ones included, any connectionLimit and an empty host pass |
| `Schema.ConfigNameIsPlain` | lib/schema.js:5-8 | a valid config name holds no `/` or `.`, so it stays inside the config folder |
| `Db.FinalOptions` | lib/db.class.js:46-64 | a pool's options are the defaults with every caller field overriding them |
| `Db.Registry.constructor` | lib/db.class.js:16 | the registry starts empty |
| `Db.Registry.CreatePool` | lib/db.class.js:30-88 | an invalid profile gives no id and changes nothing; a valid one gives its fingerprint; an already registered id changes nothing; otherwise the pool is added under that id |
| `Db.Registry.RemovePools` | lib/db.class.js:94-100 | every pool is ended and the registry is left empty; on an empty registry nothing is ended |
| `Db.CreatePoolTwice` | lib/db.class.js:38-44 | creating a pool twice from the same options gives the same id and only one new entry |
| `Db.Session.constructor` | lib/db.class.js:119-126 | a session for a registered id holds no connection |
| `Db.Registry.IsPoolId` | lib/db.class.js:108-110 | `#isPoolId`: the id is a key of the pool map; `Db.Registry.CreatePool` and `Db.OpenSession` state their branches through it |
| `Db.Session.IsConnectionActive` | lib/db.class.js:133-137 | `#isConnectionActive`: a connection is held; the free-list test never matches, so only `#con !== null` decides; `GetConnection`, `ReleaseConnection` and `Execute` state their effect through it |
| `Db.OpenSession` | lib/db.class.js:119-126 | `new DB(id)` fails exactly when the id is undefined or not registered; otherwise the session is new and idle |
| `Db.Session.GetConnection` | lib/db.class.js:143-150 | a held connection stays held; an idle session leases one while its pool is registered |
| `Db.Session.ReleaseConnection` | lib/db.class.js:156-161 | afterwards no connection is held |
| `Db.Session.Execute` | lib/db.class.js:211-215 | with a connection, the server runs the statement; without one, nothing is sent and nothing returned |
| `Db.Session.InTransaction` | lib/db.class.js:168-171 | the status query changes nothing and answers whether a transaction is open |
| `Db.Session.BeginTransaction` | lib/db.class.js:177-182 | the server state is unchanged: no transaction is begun |
| `Db.Session.Commit` | lib/db.class.js:188-193 | it commits only with a connection held and a transaction open |
| `Db.Session.Rollback` | lib/db.class.js:199-203 | it rolls back only with a connection held and a transaction open |
| `Config.FilePath` | lib/actions/config.js:25-29 | `getConfigFilePath`: the config folder, `/` and `<name>.yml`; `Config.FilePathInjective` proves distinct config names get distinct paths |
| `Config.FilePathInjective` | lib/actions/config.js:25-29 | distinct config names (matching `config_name`, so without `/` or `.`) have distinct config paths |
| `Config.FileNameInjective` | lib/actions/config.js:26 | distinct names have distinct file names `<name>.yml` |
| `Config.NameOfFile` | lib/actions/config.js:87 | `each.slice(0, -4)`: the file name without its last four characters; `Config.NameOfFileName` proves it gives back the name a config was stored under |
| `Config.NameOfFileName` | lib/actions/config.js:86-88 | `slice(0, -4)` of `<name>.yml` gives back the name |
| `Config.CoerceNumbers` | lib/actions/config.js:41-46 | port and connectionLimit go through `Number` when present; other options and the set of keys are unchanged |
| `Config.StoredRecord` | lib/actions/config.js:61-68 | the stored record has exactly the six pool fields, taken from the options |
| `Config.StoredRecordIsPoolProfile` | lib/actions/config.js:61-68 | what a successful add stores is a valid pool profile and holds no `name` |
| `Config.NegativePortAccepted` | lib/actions/config.js:41-53 | a port of `"-1"` is turned into -1 and still passes validation |
| `Config.ConfigStore.IsValidConfigName` | lib/actions/config.js:31-38 | `isValidConfigName`: whether `<name>.yml` exists in the folder; `AddAction` and `CreateOrDropAction` branch on it |
| `Config.ConfigStore.AddAction` | lib/actions/config.js:40-75 | invalid options or an existing name change nothing; otherwise exactly `<name>.yml` is added, with the stored record |
| `Config.ConfigStore.ListAction` | lib/actions/config.js:77-90 | the listing follows a directory order that holds every file of the folder exactly once; entry i is `(i + 1, name of the i-th file)` |
| `Config.ConfigStore.RemoveAction` | lib/actions/config.js:92-107 | an invalid or unknown name changes nothing; otherwise exactly `<name>.yml` is removed |
| `Migration.ConfigDetails` | lib/actions/migration.js:42-53 | the parsed config when `<name>.yml` exists, `undefined` otherwise; the result passes the pool rule exactly when the file exists and its record does, so an unknown name makes `Connect` fail before any pool exists |
| `Migration.LedgerTableReady` | lib/actions/migration.js:31-40 | afterwards the ledger table exists; an existing one is untouched; nothing else changes |
| `Migration.RunOne` | lib/actions/migration.js:74-101 | `runMigration` on a held connection: the script, then the ledger statement, then commit, or rollback after a throw; its effects are the `MigrationFacts.RunOne…` lemmas |
| `Migration.RunAll` | lib/actions/migration.js:152-162 | the `runMigration` calls of apply-all in order, a failure not stopping later files; `MigrationFacts.RunAllKeepsValid` and `MigrationFacts.RunAllUpLedger` state its effect |
| `Migration.UpPlan` | lib/actions/migration.js:114-166 | the outcome and server of `upAction` once connected; `MigrationFacts.UpById`, `MigrationFacts.UpAllRecords` and `MigrationFacts.UpAllAttempts` state its cases |
| `Migration.DownPlan` | lib/actions/migration.js:183-215 | the outcome and server of `downAction` once connected; `MigrationFacts.DownById` and `MigrationFacts.RevertLatest` state its cases |
| `Migration.EnsureLedgerTable` | lib/actions/migration.js:31-40 | the table is created, empty, only when `SHOW TABLES` lists nothing |
| `Migration.RunMigration` | lib/actions/migration.js:74-101 | with a connection the server ends as one run of the script, ledger statement, rollback or commit; without one it is unchanged |
| `Migration.ApplyAll` | lib/actions/migration.js:150-162 | the files run are exactly the merge walk's pending files, in order, each through `runMigration`, and `j <= i` throughout |
| `Migration.Connect` | lib/actions/migration.js:104-112 | an invalid profile fails before any pool or statement; otherwise one pool is registered, a connection is held and the ledger table is ready |
| `Migration.Disconnect` | lib/actions/migration.js:134-135 | the connection is released and every pool ended and removed |
| `Migration.UpWith` | lib/actions/migration.js:114-166 | with the connection held and the ledger table present, the outcome and the server follow the up plan: unknown id, already ran, no migrations, or the pending files run in id order |
| `Migration.UpAction` | lib/actions/migration.js:103-170 | an invalid profile changes nothing; otherwise the outcome and the server follow the up plan, and all pools are removed |
| `Migration.DownWith` | lib/actions/migration.js:183-215 | with the connection held and the ledger table present, the outcome and the server follow the down plan: unknown id, not ran, nothing to revert, a missing file, or one file reverted |
| `Migration.DownAction` | lib/actions/migration.js:172-219 | the same for the down plan, except that a missing file for the latest id crashes and leaves the pool registered |
| `MigrationFacts.ConfigDetailsAfterAdd` | lib/actions/migration.js:42-53 | after `addAction` stores a config, `getConfigDetails` of its name is a valid pool profile with exactly the stored fields; every other name finds what it found before |
| `MigrationFacts.InsertSortedMembers` | lib/actions/migration.js:84-86 | the new ledger holds the old ids and the new one, and nothing else |
| `MigrationFacts.RemoveLast` | lib/actions/migration.js:206-217 | deleting the latest id of a sorted ledger drops exactly its last entry |
| `MigrationFacts.LastIsLatest` | lib/actions/migration.js:206 | the last ledger entry is numerically above every other, as `ORDER BY id DESC LIMIT 1` returns |
| `MigrationFacts.RunOneUpRecords` | lib/actions/migration.js:78-94 | a successful `up` records exactly the file's id and keeps the script's schema |
| `MigrationFacts.RunOneDownForgets` | lib/actions/migration.js:78-94 | a successful `down` forgets exactly the file's id and keeps the script's schema |
| `MigrationFacts.RunOneFailureKeepsPartialWork` | lib/actions/migration.js:95-97 | with no transaction open, a failed script's changes stay and the ledger is untouched |
| `MigrationFacts.RunOneFailureInTransaction` | lib/actions/migration.js:95-97 | inside an open transaction, a failure restores the snapshot's ledger and schema |
| `MigrationFacts.RunOneRecordedUpReruns` | lib/actions/migration.js:82-97 | running `up` for a recorded id re-applies the script and leaves the ledger unchanged |
| `MigrationFacts.RunOneKeepsValid` | lib/actions/migration.js:74-101 | one migration keeps the ledger sorted and free of repetitions |
| `MigrationFacts.RunAllKeepsValid` | lib/actions/migration.js:152-162 | so does a whole run |
| `MigrationFacts.RunOneUpLedger` | lib/actions/migration.js:78-97 | one `up` adds the file's id exactly when its script succeeds |
| `MigrationFacts.RunAllUpLedger` | lib/actions/migration.js:152-162 | for scripts whose success depends on the file alone, not on the schema: after a run, an id is recorded exactly when it was before or some succeeding file has it |
| `MigrationFacts.UpAllRecords` | lib/actions/migration.js:137-169 | for scripts whose success depends on the file alone, not on the schema: apply-all records every catalog file whose script succeeds, even after an earlier failure, and adds nothing else |
| `MigrationFacts.UpAllAttempts` | lib/actions/migration.js:137-165 | an empty folder is reported; otherwise the files run come from the folder in ascending id order and include every unrecorded file; "no pending" means every id is recorded |
| `MigrationFacts.UpAllAttemptsUnrecorded` | lib/actions/migration.js:137-162 | with distinct catalog ids and a ledger of one-width catalog ids, exactly the unrecorded files are run |
| `MigrationFacts.SameWidthIncreasing` | lib/actions/migration.js:151-158 | ids of one width in numeric order are also in string order, the order the walk compares |
| `MigrationFacts.DistinctSortedIncreasing` | lib/actions/migration.js:137-141 | a sorted catalog of distinct ids is strictly increasing |
| `MigrationFacts.MiddleFailureDoesNotStop` | lib/actions/migration.js:152-162 | pending A, B, C with only B failing end with exactly A and C recorded |
| `MigrationFacts.UpById` | lib/actions/migration.js:114-135 | by any id `x`: no file `x_…` gives "invalid id"; otherwise the first such file's own id decides: recorded gives "already ran", both changing nothing; unrecorded runs that file, and success records exactly its id |
| `MigrationFacts.UpByPlainId` | lib/actions/migration.js:114-135 | for an id without `_`: "already ran" exactly when a file `x_…` exists and `x` is recorded; a successful run records exactly `x` |
| `MigrationFacts.UnderscoreIdAsksFileId` | lib/actions/migration.js:123-126 | with only `a` recorded, `--id a_b` reports the file `a_b_c` as already ran although `a_b` is not recorded |
| `MigrationFacts.DownById` | lib/actions/migration.js:183-204 | by any id `x`: no file `x_…` gives "invalid id"; otherwise the first such file's own id decides: unrecorded gives "not ran", both changing nothing; recorded reverts that file, and success forgets exactly its id |
| `MigrationFacts.DownByPlainId` | lib/actions/migration.js:183-204 | for an id without `_`: "not ran" exactly when a file `x_…` exists and `x` is not recorded; a successful revert forgets exactly `x` |
| `MigrationFacts.RevertLatest` | lib/actions/migration.js:206-218 | an empty ledger reverts nothing; otherwise the first file named `<latest>_…` is reverted exactly when one exists, success drops only that id, and a missing file changes nothing |
| `MigrationFacts.LedgerTableReadyIdempotent` | lib/actions/migration.js:31-40 | a second table check changes nothing; a created table is empty |
| `DbActions.RunPlan` | lib/actions/db.js:11-23 | `run`: the `LIKE` count guards create at one and drop at none, otherwise the statement is sent; `DbActions.LiteralNameGuards` and `DbActions.UnderscoreFalseAlarm` state what the guard means |
| `DbActions.Target` | lib/actions/db.js:35 | the database the command names, `${configData.database}`; `DbActions.StoredConfigTarget` proves a stored config targets its own database |
| `DbActions.StoredConfigTarget` | lib/actions/db.js:34-39 | a config stored by `addAction` targets exactly its database name, and its blanked options still pass the pool rule |
| `DbActions.PoolOptions` | lib/actions/db.js:34-39 | the pool is made from the config with `database` set to `''` and every other field unchanged |
| `DbActions.Run` | lib/actions/db.js:11-23 | the guard counts the databases the name matches; create stops at one, drop at none; otherwise exactly one create or drop statement is sent |
| `DbActions.CreateOrDropAction` | lib/actions/db.js:25-47 | an unknown config returns before any pool; an invalid profile fails with nothing changed; otherwise `run` acts on the config's database name, and the pools are then removed unless the statement threw |
| `DbActions.LiteralNameGuards` | lib/actions/db.js:12-22 | for a name without wildcards, create stops exactly when the database exists and otherwise adds it; drop stops exactly when it is absent and otherwise removes it; a stop leaves the server unchanged; dropping the home database empties the ledger and the schema, and nothing else touches them |
| `DbActions.PendingEmptyLedger` | lib/actions/migration.js:152-162 | with an empty ledger the walk attempts every file |
| `DbActions.DropCreateRerunsAll` | lib/actions/db.js:11-23 | `db:drop` then `db:create` of the home database lose the ledger and schema, so the next `migration:up` runs every file in id order |
| `DbActions.LikeUnderscore` | lib/actions/db.js:12 | `_` in the name matches any one character |
| `DbActions.UnderscoreFalseAlarm` | lib/actions/db.js:12-16 | `my_db` is refused as existing when only `myxdb` is present |

## Left out

- Console output, chalk colours, ora spinners and debug logging are left out. Outcomes are datatypes (`Migration.Outcome`, `DbActions.DbOutcome`, `Config.AddOutcome`, `Config.RemoveOutcome`) rather than messages.
- The clock and `moment` are left out: the stamp is built from calendar fields (`Catalog.Timestamp`). Two files created in the same millisecond share an id, and nothing in the model prevents it.
- The migration file template and the folder creation (`createDefaultMigrationFolder`, `createDefaultConfigFolder`) are left out, as is `fs` itself. The folder is a sequence of file names in the order `readdirSync` gives them; the config folder is a map from file name to parsed record.
- YAML parsing and printing are left out. A stored config file stands for the record its text parses to, and a hand-edited file that does not parse to an object is not modelled.
- The `jsonschema` library is left out. Its rules are stated as the predicates of `Schema`, for the value shapes the tool produces.
- `JSON.stringify` and the md5 digest are left out: they are injected functions of `Db.Registry` that are not interpreted. Nothing is assumed of them, so collisions are possible, and the key order `JSON.stringify` depends on is not represented.
- mysql2 pool internals are left out: leasing, the wait queue, event listeners, `pool.end` (recorded only as `ended`), connection errors, and the driver's option handling.
- Db.Session.GetConnection: a lease always succeeds while the pool is registered. A connection error, and the TypeError after `removePools` while a session still holds a connection, are not modelled. An idle session whose pool was removed throws a TypeError at lib/db.class.js:149; the model does nothing instead, because no command reaches that case.
- The `bigint` conversion of ids is left out. Ledger ids are strings ordered by length and then by character, which is the numeric order for canonical digit strings. A non-numeric id or one with leading zeros is not rejected or normalised as MySQL would do.
- Db.Session.InTransaction: the driver's typing of `@@in_transaction` is reduced to "`0` or not".
- It is not modelled that DDL statements inside a script commit an open transaction implicitly.
- The model does not cover SQL text or SQL syntax errors, except the empty database name. `LIKE` escapes and case-insensitive matching are left out too. `SHOW TABLES LIKE 'schema_migrations'` is modelled as matching only the ledger table; other tables whose names match the pattern are not modelled.
- Loading a migration file with `require` is left out, including the crash it raises outside the `try` when the file cannot be loaded. Scripts are an injected function (`Migration.Scripts`) whose outcome is success or a throw after some effect.
- Db.Session.BeginTransaction: the status query it sends is not awaited. The model sends it in sequence and ignores its answer.
- Migration.RunMigration: a failing rollback or commit is not modelled, because the abstract server never rejects them.
- Catalog.SortById: the comparator returns 1 for equal ids, so the engine's order among files with the same id is unspecified. The model fixes one such order (insertion sort). Every property stated holds for any order sorted by id.
- `Catalog.IdOf` and `Strings.Less` work on `char` sequences. JavaScript compares UTF-16 code units, and `\W` is ASCII-based; the model treats each character as one unit.
- Values.Number: covers integers, strings of decimal digits with an optional sign, booleans and `null`. Other spellings (hexadecimal, exponents, whitespace, fractions) all give "not an integer". Integers are exact at any size; JavaScript rounds above 2^53, so a digit string that long may become a different integer there.
- Values.Text: every non-integer number is written `NaN`. A fraction such as `database: 1.5` in a hand-edited config is written `1.5` by a template literal; the model does not keep the digits of fractions, because the profile rules only ask whether a number is an integer.
- Config.FilePath: path joining is plain concatenation with `/`, and `path.join` normalisation of `..` and repeated `/` is not modelled. For names that pass `config_name` there is nothing to normalise. Config names from the CLI are not validated in `getConfigDetails`, so `Schema.ConfigNameIsPlain` protects only the commands that check the name.
- The CLI routing in `lib/dbm.js` and `index.js`, the interactive prompts in `actions/config.js` and `lib/debug.js` are left out. `Config.ConfigStore.ListAction` covers the "list is empty" case only as an empty listing.
- Server.Exec: the server state follows one config, whose `database` is the home database; other databases are names only. Connecting to a home database that has been dropped (a MySQL error) is not modelled: the migration commands then act on an empty ledger.
- Concurrent runs of the tool against one database are left out. So are asynchronous interleaving and process exit.
