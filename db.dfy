/**
 * The database layer: the process-wide registry of connection pools, keyed
 * by a digest of the serialised options, and the session that leases one
 * connection from a pool and runs statements and transaction control on it.
 */
module Db {
  import opened Wrappers
  import opened Values
  import opened Schema
  import opened Server

  type PoolId = string

  /** The options every pool starts from. `Promise` is the promise library
      handed to the driver, an object. */
  function Defaults(): Record
  {
    map["waitForConnections" := Bool(true), "queueLimit" := Int(0), "decimalNumbers" := Bool(true),
        "supportBigNumbers" := Bool(true), "bigNumberStrings" := Bool(true),
        "dateStrings" := Bool(false), "timezone" := Str("Z"), "charset" := Str("utf8mb4"),
        "namedPlaceholders" := Bool(true), "nestTables" := Bool(false), "rowsAsArray" := Bool(false),
        "Promise" := Obj(map[])]
  }

  /** `{...defaultOptions, ...options}`: the caller's fields always win. */
  function FinalOptions(options: Record): (r: Record)
    ensures r.Keys == Defaults().Keys + options.Keys
    ensures forall k :: k in options ==> r[k] == options[k]
    ensures forall k :: k in Defaults() && k !in options ==> r[k] == Defaults()[k]
  {
    Defaults() + options
  }

  /** The static `#pools` map of the `DB` class, with the two functions that
      make a pool id: `JSON.stringify` and the md5 hex digest, both taken as
      given. `ended` records the pools whose `end()` has been awaited. */
  class Registry {
    var pools: map<PoolId, Record>
    var ended: set<PoolId>
    const stringify: Value -> string
    const digest: string -> PoolId

    constructor (stringify: Value -> string, digest: string -> PoolId)
      ensures pools == map[] && ended == {}
      ensures this.stringify == stringify && this.digest == digest
    {
      pools := map[];
      ended := {};
      this.stringify := stringify;
      this.digest := digest;
    }

    /** The pool id of a set of options. */
    function PoolIdOf(options: Value): PoolId
    {
      digest(stringify(options))
    }

    /** `#isPoolId`. */
    predicate IsPoolId(id: PoolId)
      reads this
    {
      id in pools
    }

    /** `createPool`: nothing for options the pool rule rejects; the existing
        id for options already registered; otherwise a new pool under the id. */
    method CreatePool(options: Value) returns (id: Option<PoolId>)
      modifies this
      ensures ended == old(ended)
      ensures !ValidPoolProfile(options) ==> id.None? && pools == old(pools)
      ensures ValidPoolProfile(options) ==> id == Some(PoolIdOf(options))
      ensures ValidPoolProfile(options) && PoolIdOf(options) in old(pools) ==> pools == old(pools)
      ensures ValidPoolProfile(options) && PoolIdOf(options) !in old(pools) ==>
                pools == old(pools)[PoolIdOf(options) := FinalOptions(options.fields)]
      ensures id.Some? ==> id.value in pools
    {
      if !ValidPoolProfile(options) {
        return None;
      }
      var poolId := digest(stringify(options));
      if IsPoolId(poolId) {
        return Some(poolId);
      }
      pools := pools[poolId := FinalOptions(options.fields)];
      return Some(poolId);
    }

    /** `removePools`: ends every registered pool, then empties the registry. */
    method RemovePools()
      modifies this
      ensures pools == map[]
      ensures ended == old(ended) + old(pools).Keys
    {
      var remaining := pools.Keys;
      while remaining != {}
        invariant remaining <= old(pools).Keys && pools == old(pools)
        invariant ended == old(ended) + (old(pools).Keys - remaining)
        decreases remaining
      {
        var poolId :| poolId in remaining;
        ended := ended + {poolId};
        remaining := remaining - {poolId};
      }
      pools := map[];
    }
  }

  /** Creating a pool twice from the same options gives the same id and
      leaves the registry as the first call left it. */
  method CreatePoolTwice(registry: Registry, options: Value) returns (first: Option<PoolId>, second: Option<PoolId>)
    modifies registry
    ensures first == second
    ensures first.Some? <==> ValidPoolProfile(options)
    ensures first.Some? ==> registry.pools.Keys == old(registry.pools).Keys + {first.value}
  {
    first := registry.CreatePool(options);
    ghost var afterFirst := registry.pools;
    second := registry.CreatePool(options);
    assert registry.pools == afterFirst;
  }

  /** An instance of the `DB` class: a pool id and at most one leased
      connection (`#con`), here `held`. */
  class Session {
    const registry: Registry
    const server: Server
    const poolId: PoolId
    var held: bool

    /** The constructor for a registered pool id; `OpenSession` covers the
        unregistered case. */
    constructor (registry: Registry, server: Server, poolId: PoolId)
      requires poolId in registry.pools
      ensures this.registry == registry && this.server == server && this.poolId == poolId
      ensures !held
    {
      this.registry := registry;
      this.server := server;
      this.poolId := poolId;
      held := false;
    }

    /** `#isConnectionActive`. The free-list test passes a function to
        `indexOf`, which never finds it, so only `#con !== null` decides. */
    predicate IsConnectionActive()
      reads this
    {
      held
    }

    /** `getConnection`: a no-op while a connection is held; otherwise
        leases one from the pool, if the pool is still registered. */
    method GetConnection()
      modifies this
      ensures held == (old(held) || poolId in registry.pools)
    {
      if IsConnectionActive() {
        return;
      }
      if registry.IsPoolId(poolId) {
        held := true;
      }
    }

    /** `releaseConnection`: gives the connection back and forgets it. */
    method ReleaseConnection()
      modifies this
      ensures !held
    {
      if IsConnectionActive() {
        held := false;
      }
    }

    /** `execute`: runs the statement on the held connection; without one it
        issues nothing and returns nothing. */
    method Execute(stmt: Statement) returns (reply: Reply)
      modifies server
      ensures held ==> (server.state, reply) == Exec(old(server.state), stmt)
      ensures !held ==> reply == NoResult && server.state == old(server.state)
    {
      if IsConnectionActive() {
        var result := Exec(server.state, stmt);
        server.state := result.0;
        reply := result.1;
      } else {
        reply := NoResult;
      }
    }

    /** `#inTransaction`: asks the server, `'0'` meaning no transaction. Its
        callers only reach it while a connection is held. */
    method InTransaction() returns (inTx: bool)
      requires held
      modifies server
      ensures server.state == old(server.state)
      ensures inTx == server.state.openTx.Some?
    {
      var reply := Execute(SelectInTransaction);
      inTx := reply.rows[0] != "0";
    }

    /** `beginTransaction`: with a connection held, `!this.#inTransaction()`
        negates the Promise the call returns, which is truthy, so the guard
        is false and the driver's `beginTransaction` is never called. The
        status query itself is still sent. */
    method BeginTransaction()
      modifies server
      ensures server.state == old(server.state)
    {
      if IsConnectionActive() {
        var pending := InTransaction();
      }
    }

    /** `commit`: only with a connection held and a transaction open. */
    method Commit()
      modifies server
      ensures server.state == if held && old(server.state).openTx.Some? then CommitState(old(server.state))
                              else old(server.state)
    {
      if IsConnectionActive() {
        var inTx := InTransaction();
        if inTx {
          server.state := CommitState(server.state);
        }
      }
    }

    /** `rollback`: only with a connection held and a transaction open. */
    method Rollback()
      modifies server
      ensures server.state == if held && old(server.state).openTx.Some? then RollbackState(old(server.state))
                              else old(server.state)
    {
      if IsConnectionActive() {
        var inTx := InTransaction();
        if inTx {
          server.state := RollbackState(server.state);
        }
      }
    }
  }

  /** `new DB(poolId)`: throws `Invalid pool id` (here: null) unless the id is
      registered; a new session holds no connection. An undefined id is
      `None`. */
  method OpenSession(registry: Registry, server: Server, poolId: Option<PoolId>) returns (s: Session?)
    ensures s == null <==> poolId.None? || poolId.value !in registry.pools
    ensures s != null ==> fresh(s) && s.registry == registry && s.server == server &&
                          s.poolId == poolId.value && !s.held
  {
    if poolId.None? || !registry.IsPoolId(poolId.value) {
      return null;
    }
    s := new Session(registry, server, poolId.value);
  }
}
