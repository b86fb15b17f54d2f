/**
 * The Instance object of instance.go: one database server, its cache of
 * connection pools, and the facts hydrated from the server on the first
 * successful connection.
 *
 * Nothing here talks to a server. Every outcome the Go code gets from the
 * driver is an argument instead:
 *   - `connect` maps the "schema?params" part of a DSN to the pool the driver
 *     opens for it (a number standing for the *sqlx.DB) or to its error;
 *   - `query` is the outcome of the hydration query;
 *   - other arguments carry the rows or errors of the remaining queries and
 *     statements (SHOW GRANTS, the partition listing, the DROP statements).
 */
module Instances {
  import opened Outcomes
  import opened Text
  import opened Flavors
  import opened Params
  import opened Grants
  import opened BulkDrop
  import opened InstanceRules

  /** What the driver opens for "schema?params": a pool's identity, or why it failed. */
  type Connector = string -> Result<nat>

  /** A connection pool and the two limits set on it when it was opened. */
  datatype Pool = Pool(id: nat, maxOpenConns: Option<int>, maxLifetimeMs: int)

  /** Every entry of `before` is still in `after`, unchanged: the cache only grew. */
  predicate Extends(before: map<string, Pool>, after: map<string, Pool>) {
    forall k :: k in before ==> k in after && after[k] == before[k]
  }

  /**
   * The cache and the hydrated state after CachedConnectionPool asks for
   * `key`: a cached key changes nothing, a refused connection changes
   * nothing, and an accepted one hydrates (on the first success) and caches
   * the new pool with the limits taken from the hydrated variables.
   */
  function CachedConnect(pools: map<string, Pool>, h: Hydration, key: string, connect: Connector,
                         query: Result<ServerVars>): (after: (map<string, Pool>, Hydration))
    ensures Extends(pools, after.0)
    ensures forall k :: k in after.0 && k !in pools ==> k == key && connect(key).Ok?
    ensures key in pools || connect(key).Err? ==> after == (pools, h)
    ensures key !in pools && connect(key).Ok? ==> key in after.0 && after.1 == Hydrate(h, query)
  {
    if key in pools || connect(key).Err? then (pools, h)
    else
      var h2 := Hydrate(h, query);
      (pools[key := Pool(connect(key).value, MaxOpenConns(h2.maxUserConns), MaxLifetimeMs(h2.waitTimeout))], h2)
  }

  /** Some table of the map holds rows, or could not be checked. */
  predicate SomeTableNotEmpty(tables: map<string, seq<string>>, rowsOf: string -> Result<nat>) {
    exists t :: t in tables && rowsOf(t) != Ok(0)
  }

  /**
   * What the table drops of a schema report, given the error of opening its
   * pool (None when the pool opens): that error; the listing's error;
   * nothing for a schema without tables; an error and no statement when
   * OnlyIfEmpty finds rows; otherwise the drop plan's statements and result.
   */
  predicate TableDropsReport(err: Option<Error>, log: seq<DropAction>, connectErr: Option<Error>, opts: BulkDropOptions,
                             rows: Result<seq<PartitionRow>>, rowsOf: string -> Result<nat>, exec: Exec, retryExec: Exec) {
    if connectErr.Some? then err == connectErr && log == []
    else if rows.Err? then err == Some(rows.error) && log == []
    else
      var tables := PartitionMap(rows.value);
      if tables == map[] then err.None? && log == []
      else if opts.onlyIfEmpty && SomeTableNotEmpty(tables, rowsOf) then err.Some? && log == []
      else (log, err) == DropPlan(tables, opts.partitionsFirst, exec, retryExec)
  }

  /** The table drops report no error exactly when the pool opens and the tables are cleared. */
  lemma TableDropsReportClean(err: Option<Error>, log: seq<DropAction>, connectErr: Option<Error>, opts: BulkDropOptions,
                              rows: Result<seq<PartitionRow>>, rowsOf: string -> Result<nat>, exec: Exec, retryExec: Exec)
    requires TableDropsReport(err, log, connectErr, opts, rows, rowsOf, exec, retryExec)
    ensures err.None? <==> connectErr.None? && TablesCleared(opts, rows, rowsOf, exec, retryExec)
  {
  }

  /**
   * The cache after a schema's pools are evicted: no key of the schema is
   * left, every other entry of `before` is unchanged, and the only entry that
   * may be new is `extra`.
   */
  predicate SchemaEvicted(before: map<string, Pool>, after: map<string, Pool>, prefix: string, extra: string) {
    (forall k :: k in after ==> !HasPrefix(k, prefix)) &&
    (forall k :: k in before && !HasPrefix(k, prefix) ==> k in after && after[k] == before[k]) &&
    (forall k :: k in after ==> k in before || k == extra)
  }

  /** An entry added under a key of the schema before the eviction is evicted with the rest. */
  lemma SchemaEvictedAfterGrowth(before: map<string, Pool>, middle: map<string, Pool>, after: map<string, Pool>,
                                 prefix: string, added: string, extra: string)
    requires Extends(before, middle)
    requires forall k :: k in middle && k !in before ==> k == added
    requires HasPrefix(added, prefix)
    requires SchemaEvicted(middle, after, prefix, extra)
    ensures SchemaEvicted(before, after, prefix, extra)
  {
  }

  /** Removing one entry leaves the other values; with its own value they are all the old values. */
  lemma RemoveEntryValues(pools: map<string, Pool>, key: string)
    requires key in pools
    ensures pools.Values == (pools - {key}).Values + {pools[key]}
  {
    forall p | p in pools.Values ensures p in (pools - {key}).Values + {pools[key]} {
      var k :| k in pools && pools[k] == p;
      if k != key {
        assert k in pools - {key};
      }
    }
  }

  /** Extends is transitive. */
  lemma ExtendsTrans(a: map<string, Pool>, b: map<string, Pool>, c: map<string, Pool>)
    requires Extends(a, b) && Extends(b, c)
    ensures Extends(a, c)
  {
  }

  /**
   * The table drops of a schema report no error: the listing succeeds, and
   * either there is no table, or the emptiness check (when asked for) passes
   * and the drop plan reports nothing.
   */
  predicate TablesCleared(opts: BulkDropOptions, rows: Result<seq<PartitionRow>>, rowsOf: string -> Result<nat>,
                          exec: Exec, retryExec: Exec) {
    rows.Ok? &&
    (PartitionMap(rows.value) == map[] ||
     (!(opts.onlyIfEmpty && SomeTableNotEmpty(PartitionMap(rows.value), rowsOf)) &&
      DropPlan(PartitionMap(rows.value), opts.partitionsFirst, exec, retryExec).1.None?))
  }

  /**
   * DropTablesInSchema once its pool is open: list the partitions, check
   * emptiness when asked, then run the drop plan at the effective
   * concurrency.
   */
  method PlanTableDrops(opts: BulkDropOptions, rows: Result<seq<PartitionRow>>, rowsOf: string -> Result<nat>,
                        exec: Exec, retryExec: Exec, bufferPoolSize: int, flavor: Flavor)
    returns (err: Option<Error>, log: seq<DropAction>, concurrency: Option<int>)
    ensures rows.Err? ==> err == Some(rows.error) && log == [] && concurrency.None?
    ensures rows.Ok? && PartitionMap(rows.value) == map[] ==> err.None? && log == [] && concurrency.None?
    ensures rows.Ok? && opts.onlyIfEmpty && SomeTableNotEmpty(PartitionMap(rows.value), rowsOf) ==>
              err.Some? && log == [] && concurrency.None?
    ensures rows.Ok? && PartitionMap(rows.value) != map[] && !(opts.onlyIfEmpty && SomeTableNotEmpty(PartitionMap(rows.value), rowsOf)) ==>
              (log, err) == DropPlan(PartitionMap(rows.value), opts.partitionsFirst, exec, retryExec) &&
              concurrency == Some(EffectiveConcurrency(opts, bufferPoolSize, flavor))
    ensures err.None? <==> TablesCleared(opts, rows, rowsOf, exec, retryExec)
  {
    if rows.Err? {
      return Some(rows.error), [], None;
    }
    var tables := TablesToPartitions(rows.value);
    if |tables| == 0 {
      assert tables == map[];
      return None, [], None;
    }
    if opts.onlyIfEmpty {
      var names := SortedKeys(tables.Keys);
      err := ConfirmTablesEmpty(names, rowsOf);
      if err.Some? {
        return err, [], None;
      }
      assert !SomeTableNotEmpty(tables, rowsOf) by {
        forall t | t in tables ensures rowsOf(t) == Ok(0) {
          var i :| 0 <= i < |names| && names[i] == t;
        }
      }
    }
    concurrency := Some(EffectiveConcurrency(opts, bufferPoolSize, flavor));
    err, log := DropTables(tables, opts.partitionsFirst, exec, retryExec);
  }

  class Instance {
    var host: string
    var port: int
    var socketPath: string
    var defaultParams: Params
    var connectionPool: map<string, Pool>   // keyed by "schema?params"
    var flavor: Flavor
    var version: Triple
    var grants: Option<seq<string>>         // None while never hydrated (Go's nil slice)
    var waitTimeout: int
    var maxUserConns: int
    var bufferPoolSize: int
    var sqlMode: seq<string>
    var valid: bool                         // some connection has succeeded

    /** The address and the DSN's own parameters, which no operation changes. */
    function Settings(): (string, int, string, Params)
      reads this
    {
      (host, port, socketPath, defaultParams)
    }

    /** The fields that hydrateVars writes. */
    function Hydrated(): Hydration
      reads this
    {
      Hydration(valid, flavor, version, sqlMode, waitTimeout, maxUserConns, bufferPoolSize)
    }

    /** The cache and the hydrated state are what CachedConnect makes of the given ones. */
    predicate ConnectedFrom(pools: map<string, Pool>, h: Hydration, key: string, connect: Connector, query: Result<ServerVars>)
      reads this
    {
      (connectionPool, Hydrated()) == CachedConnect(pools, h, key, connect, query)
    }

    /** The version always mirrors the flavor, and every cached pool lives at most 30 seconds. */
    predicate Consistent()
      reads this
    {
      version == flavor.Version() &&
      forall k :: k in connectionPool ==> 0 < connectionPool[k].maxLifetimeMs <= 30000
    }

    /** The Instance that NewInstance builds once the DSN is parsed. */
    constructor(host: string, port: int, socketPath: string, defaultParams: Params)
      ensures Settings() == (host, port, socketPath, defaultParams)
      ensures connectionPool == map[] && grants == None
      ensures Hydrated() == Hydration(false, FlavorUnknown, ZeroVersion, [], 0, 0, 0)
      ensures Consistent()
    {
      this.host := host;
      this.port := port;
      this.socketPath := socketPath;
      this.defaultParams := defaultParams;
      connectionPool := map[];
      flavor := FlavorUnknown;
      version := ZeroVersion;
      grants := None;
      waitTimeout := 0;
      maxUserConns := 0;
      bufferPoolSize := 0;
      sqlMode := [];
      valid := false;
    }

    // -------------------------------------------------------------------
    // String and HostAndOptionalPort (instance.go:85-103)

    /** "host:port", "host:/path/to/socket", or the bare host when no port is set. */
    function String(): (s: string)
      reads this
      ensures HasPrefix(s, host)
      ensures s == host <==> socketPath == "" && port == 0
      ensures socketPath != "" ==> s == host + ":" + socketPath
      ensures socketPath == "" && port != 0 ==> s == host + ":" + IntToString(port)
    {
      if socketPath != "" then
        assert (host + ":" + socketPath)[..|host|] == host;
        host + ":" + socketPath
      else if port == 0 then host
      else
        assert (host + ":" + IntToString(port))[..|host|] == host;
        host + ":" + IntToString(port)
    }

    /** Like String, without the default port 3306 and without a socket path. */
    function HostAndOptionalPort(): (s: string)
      reads this
      ensures HasPrefix(String(), s)
      ensures port == 3306 || socketPath != "" ==> s == host
      ensures port != 3306 && socketPath == "" ==> s == String()
    {
      if port == 3306 || socketPath != "" then host else String()
    }

    // -------------------------------------------------------------------
    // Parameters and cache keys (instance.go:105-115, 139)

    /** The parameter string a request for `params` connects with. */
    function FullParams(params: string): string
      reads this
    {
      EncodeParams(defaultParams + DecodeParams(params))
    }

    /** The cache key of a request. */
    function Key(schema: string, params: string): string
      reads this
    {
      CacheKey(schema, FullParams(params))
    }

    /** A pool for the request can be had: it is cached, or the driver opens one. */
    predicate Reachable(schema: string, params: string, connect: Connector)
      reads this
    {
      Key(schema, params) in connectionPool || connect(Key(schema, params)).Ok?
    }

    /** The error CachedConnectionPool gives for the request, or None when a pool can be had. */
    function ConnectError(schema: string, params: string, connect: Connector): (e: Option<Error>)
      reads this
      ensures e.None? <==> Reachable(schema, params, connect)
      ensures e.Some? ==> e == Some(connect(Key(schema, params)).error)
    {
      if Reachable(schema, params, connect) then None else connect(Key(schema, params)).ToError()
    }

    /**
     * buildParamString: every default, then every caller parameter over it.
     * The result reads back as that merge whenever both sides are free of
     * the characters that need escaping.
     */
    method BuildParamString(params: string) returns (s: string)
      ensures s == FullParams(params)
      ensures Encodable(defaultParams) && Encodable(DecodeParams(params)) ==>
                DecodeParams(s) == defaultParams + DecodeParams(params)
    {
      var merged := MergeParams(defaultParams, DecodeParams(params));
      s := EncodeParams(merged);
      if Encodable(defaultParams) && Encodable(DecodeParams(params)) {
        MergeEncodable(defaultParams, DecodeParams(params));
        DecodeEncode(merged);
      }
    }

    // -------------------------------------------------------------------
    // hydrateVars and rawConnectionPool (instance.go:158-190, 264-307)

    /** hydrateVars over the outcome of its query. */
    method HydrateVars(query: Result<ServerVars>)
      modifies this
      ensures Hydrated() == Hydrate(old(Hydrated()), query)
      ensures Settings() == old(Settings()) && connectionPool == old(connectionPool) && grants == old(grants)
    {
      if valid || query.Err? {
        return;
      }
      var vars := query.value;
      valid := true;
      version := ParseVersion(vars.version);
      flavor := ParseFlavor(vars.version, vars.versionComment);
      sqlMode := Split(vars.sqlMode, ',');
      waitTimeout := vars.waitTimeout;
      bufferPoolSize := vars.bufferPoolSize;
      if vars.maxUserConns > 0 {
        maxUserConns := vars.maxUserConns;
      } else {
        maxUserConns := vars.maxConns;
      }
    }

    /**
     * rawConnectionPool: open a pool, hydrate on the first success, then
     * limit the pool by what is known of the server.
     */
    method RawConnectionPool(schema: string, fullParams: string, connect: Connector, query: Result<ServerVars>)
      returns (r: Result<Pool>)
      requires Consistent()
      modifies this
      ensures Consistent()
      ensures Settings() == old(Settings()) && connectionPool == old(connectionPool) && grants == old(grants)
      ensures connect(CacheKey(schema, fullParams)).Err? ==>
                r == Err(connect(CacheKey(schema, fullParams)).error) && Hydrated() == old(Hydrated())
      ensures connect(CacheKey(schema, fullParams)).Ok? ==>
                Hydrated() == Hydrate(old(Hydrated()), query) &&
                r == Ok(Pool(connect(CacheKey(schema, fullParams)).value, MaxOpenConns(maxUserConns), MaxLifetimeMs(waitTimeout)))
    {
      var attempt := connect(CacheKey(schema, fullParams));
      if attempt.Err? {
        return Err(attempt.error);
      }
      if !valid {
        HydrateVars(query);
      }
      r := Ok(Pool(attempt.value, MaxOpenConns(maxUserConns), MaxLifetimeMs(waitTimeout)));
    }

    // -------------------------------------------------------------------
    // ConnectionPool and CachedConnectionPool (instance.go:117-151)

    /** ConnectionPool: a pool that the cache never holds. */
    method ConnectionPool(schema: string, params: string, connect: Connector, query: Result<ServerVars>)
      returns (r: Result<Pool>)
      requires Consistent()
      modifies this
      ensures Consistent()
      ensures Settings() == old(Settings()) && connectionPool == old(connectionPool) && grants == old(grants)
      ensures connect(old(Key(schema, params))).Err? ==>
                r == Err(connect(old(Key(schema, params))).error) && Hydrated() == old(Hydrated())
      ensures connect(old(Key(schema, params))).Ok? ==>
                Hydrated() == Hydrate(old(Hydrated()), query) &&
                r == Ok(Pool(connect(old(Key(schema, params))).value, MaxOpenConns(maxUserConns), MaxLifetimeMs(waitTimeout)))
    {
      var fullParams := BuildParamString(params);
      assert CacheKey(schema, fullParams) == old(Key(schema, params));
      r := RawConnectionPool(schema, fullParams, connect, query);
    }

    /**
     * CachedConnectionPool: a request already cached gets its pool back and
     * changes nothing; otherwise a pool is opened and cached under
     * "schema?params" only when the driver succeeds.
     */
    method CachedConnectionPool(schema: string, params: string, connect: Connector, query: Result<ServerVars>)
      returns (r: Result<Pool>)
      requires Consistent()
      modifies this
      ensures Consistent()
      ensures Settings() == old(Settings()) && grants == old(grants)
      ensures r.Ok? <==> old(Reachable(schema, params, connect))
      ensures Extends(old(connectionPool), connectionPool)
      ensures old(Key(schema, params)) in old(connectionPool) ==>
                r == Ok(old(connectionPool)[old(Key(schema, params))]) &&
                connectionPool == old(connectionPool) && Hydrated() == old(Hydrated())
      ensures old(Key(schema, params)) !in old(connectionPool) && r.Err? ==>
                r == Err(connect(old(Key(schema, params))).error) &&
                connectionPool == old(connectionPool) && Hydrated() == old(Hydrated())
      ensures old(Key(schema, params)) !in old(connectionPool) && r.Ok? ==>
                connectionPool == old(connectionPool)[old(Key(schema, params)) := r.value] &&
                r.value.id == connect(old(Key(schema, params))).value &&
                Hydrated() == Hydrate(old(Hydrated()), query)
      ensures ConnectedFrom(old(connectionPool), old(Hydrated()), old(Key(schema, params)), connect, query)
    {
      var fullParams := BuildParamString(params);
      assert CacheKey(schema, fullParams) == old(Key(schema, params));
      assert old(Reachable(schema, params, connect)) <==>
        CacheKey(schema, fullParams) in connectionPool || connect(CacheKey(schema, fullParams)).Ok?;
      r := LookupOrOpen(schema, fullParams, connect, query);
    }

    /** CachedConnectionPool once the parameter string is built: the cache is consulted by its key. */
    method LookupOrOpen(schema: string, fullParams: string, connect: Connector, query: Result<ServerVars>)
      returns (r: Result<Pool>)
      requires Consistent()
      modifies this
      ensures Consistent()
      ensures Settings() == old(Settings()) && grants == old(grants)
      ensures r.Ok? <==> CacheKey(schema, fullParams) in old(connectionPool) || connect(CacheKey(schema, fullParams)).Ok?
      ensures Extends(old(connectionPool), connectionPool)
      ensures CacheKey(schema, fullParams) in old(connectionPool) ==>
                r == Ok(old(connectionPool)[CacheKey(schema, fullParams)]) &&
                connectionPool == old(connectionPool) && Hydrated() == old(Hydrated())
      ensures CacheKey(schema, fullParams) !in old(connectionPool) && r.Err? ==>
                r == Err(connect(CacheKey(schema, fullParams)).error) &&
                connectionPool == old(connectionPool) && Hydrated() == old(Hydrated())
      ensures CacheKey(schema, fullParams) !in old(connectionPool) && r.Ok? ==>
                connectionPool == old(connectionPool)[CacheKey(schema, fullParams) := r.value] &&
                r.value.id == connect(CacheKey(schema, fullParams)).value &&
                Hydrated() == Hydrate(old(Hydrated()), query)
      ensures ConnectedFrom(old(connectionPool), old(Hydrated()), CacheKey(schema, fullParams), connect, query)
    {
      var key := CacheKey(schema, fullParams);
      if key in connectionPool {
        return Ok(connectionPool[key]);
      }
      r := OpenAndCache(schema, fullParams, connect, query);
    }

    /** The miss path of CachedConnectionPool: open a pool and cache it when that succeeds. */
    method OpenAndCache(schema: string, fullParams: string, connect: Connector, query: Result<ServerVars>)
      returns (r: Result<Pool>)
      requires Consistent()
      modifies this
      ensures Consistent()
      ensures Settings() == old(Settings()) && grants == old(grants)
      ensures r.Ok? <==> connect(CacheKey(schema, fullParams)).Ok?
      ensures r.Err? ==>
                r == Err(connect(CacheKey(schema, fullParams)).error) &&
                connectionPool == old(connectionPool) && Hydrated() == old(Hydrated())
      ensures r.Ok? ==>
                connectionPool == old(connectionPool)[CacheKey(schema, fullParams) := r.value] &&
                r.value == Pool(connect(CacheKey(schema, fullParams)).value, MaxOpenConns(maxUserConns), MaxLifetimeMs(waitTimeout)) &&
                Hydrated() == Hydrate(old(Hydrated()), query)
    {
      r := RawConnectionPool(schema, fullParams, connect, query);
      if r.Ok? {
        connectionPool := connectionPool[CacheKey(schema, fullParams) := r.value];
      }
    }

    // -------------------------------------------------------------------
    // Valid, CloseAll, Flavor, SetFlavor, ForceFlavor, Version (instance.go:203-262)

    /**
     * Valid: true once any connection has succeeded; otherwise the answer
     * of a fresh attempt through the cache.
     */
    method Valid(connect: Connector, query: Result<ServerVars>) returns (ok: bool, err: Option<Error>)
      requires Consistent()
      modifies this
      ensures Consistent()
      ensures Settings() == old(Settings()) && grants == old(grants)
      ensures ok <==> err.None?
      ensures ok <==> old(valid) || old(Reachable("", "", connect))
      ensures old(valid) ==> connectionPool == old(connectionPool) && Hydrated() == old(Hydrated())
      ensures !old(valid) && old(Key("", "")) !in old(connectionPool) && ok ==>
                Hydrated() == Hydrate(old(Hydrated()), query)
      ensures !old(valid) && (old(Key("", "")) in old(connectionPool) || !ok) ==> Hydrated() == old(Hydrated())
      ensures !old(valid) ==> ConnectedFrom(old(connectionPool), old(Hydrated()), old(Key("", "")), connect, query)
    {
      if valid {
        return true, None;
      }
      var r := CachedConnectionPool("", "", connect, query);
      ok := r.Ok?;
      err := r.ToError();
    }

    /** CloseAll: every cached pool is closed and the cache is left empty. */
    method CloseAll() returns (closed: set<Pool>)
      modifies this
      ensures connectionPool == map[]
      ensures closed == old(connectionPool).Values
      ensures Settings() == old(Settings()) && Hydrated() == old(Hydrated()) && grants == old(grants)
    {
      closed := {};
      while connectionPool != map[]
        invariant connectionPool.Keys <= old(connectionPool).Keys
        invariant forall k :: k in connectionPool ==> connectionPool[k] == old(connectionPool)[k]
        invariant closed + connectionPool.Values == old(connectionPool).Values
        invariant Settings() == old(Settings()) && Hydrated() == old(Hydrated()) && grants == old(grants)
        decreases |connectionPool.Keys|
      {
        var key :| key in connectionPool;
        var pool := connectionPool[key];
        ghost var before := connectionPool;
        connectionPool := connectionPool - {key};
        closed := closed + {pool};
        RemoveEntryValues(before, key);
      }
    }

    /** Flavor: the hydrated flavor, after an attempt to hydrate it. */
    method Flavor(connect: Connector, query: Result<ServerVars>) returns (f: Flavor)
      requires Consistent()
      modifies this
      ensures Consistent()
      ensures Settings() == old(Settings()) && grants == old(grants)
      ensures f == flavor
      ensures old(valid) ==> f == old(flavor) && connectionPool == old(connectionPool)
      ensures Hydrated() == old(Hydrated()) || Hydrated() == Hydrate(old(Hydrated()), query)
      ensures old(valid) ==> Hydrated() == old(Hydrated())
      ensures !old(valid) ==> ConnectedFrom(old(connectionPool), old(Hydrated()), old(Key("", "")), connect, query)
    {
      var _, _ := Valid(connect, query);
      f := flavor;
    }

    /** Version: the three numbers of the hydrated version, which match the flavor's. */
    method Version(connect: Connector, query: Result<ServerVars>) returns (v: Triple)
      requires Consistent()
      modifies this
      ensures Consistent()
      ensures Settings() == old(Settings()) && grants == old(grants)
      ensures v == version && v == flavor.Version()
      ensures old(valid) ==> v == old(version) && connectionPool == old(connectionPool)
      ensures old(valid) ==> Hydrated() == old(Hydrated())
      ensures !old(valid) ==> ConnectedFrom(old(connectionPool), old(Hydrated()), old(Key("", "")), connect, query)
    {
      var _, _ := Valid(connect, query);
      v := version;
    }

    /** ForceFlavor: the flavor and the version it implies, unconditionally. */
    method ForceFlavor(f: Flavor)
      requires Consistent()
      modifies this
      ensures flavor == f && version == Triple(f.major, f.minor, f.patch)
      ensures Consistent()
      ensures Settings() == old(Settings()) && connectionPool == old(connectionPool) && grants == old(grants)
      ensures valid == old(valid) && sqlMode == old(sqlMode) && waitTimeout == old(waitTimeout)
      ensures maxUserConns == old(maxUserConns) && bufferPoolSize == old(bufferPoolSize)
    {
      flavor := f;
      version := Triple(f.major, f.minor, f.patch);
    }

    /** SetFlavor: refused, changing nothing, once a known flavor has been detected. */
    method SetFlavor(f: Flavor) returns (err: Option<Error>)
      requires Consistent()
      modifies this
      ensures Consistent()
      ensures old(flavor).Known() ==>
                err == Some(FlavorAlreadyDetected(old(String()), old(flavor).String())) &&
                flavor == old(flavor) && version == old(version)
      ensures !old(flavor).Known() ==> err.None? && flavor == f && version == f.Version()
      ensures Settings() == old(Settings()) && connectionPool == old(connectionPool) && grants == old(grants)
      ensures valid == old(valid) && sqlMode == old(sqlMode) && waitTimeout == old(waitTimeout)
      ensures maxUserConns == old(maxUserConns) && bufferPoolSize == old(bufferPoolSize)
    {
      if flavor.Known() {
        return Some(FlavorAlreadyDetected(String(), flavor.String()));
      }
      ForceFlavor(f);
      err := None;
    }

    // -------------------------------------------------------------------
    // CanSkipBinlog and hydrateGrants (instance.go:317-340)

    /**
     * hydrateGrants: SHOW GRANTS through the cached pool. Rows are appended
     * to the nil slice, so only a non-empty answer leaves grants set.
     */
    method HydrateGrants(connect: Connector, query: Result<ServerVars>, shown: Result<seq<string>>)
      requires Consistent() && grants.None?
      modifies this
      ensures Consistent()
      ensures Settings() == old(Settings())
      ensures grants == if old(Reachable("", "", connect)) && shown.Ok? && shown.value != [] then Some(shown.value) else None
      ensures ConnectedFrom(old(connectionPool), old(Hydrated()), old(Key("", "")), connect, query)
    {
      var r := CachedConnectionPool("", "", connect, query);
      if r.Err? {
        return;
      }
      if shown.Ok? && shown.value != [] {
        grants := Some(shown.value);
      }
    }

    /**
     * CanSkipBinlog: whether some grant allows SET sql_log_bin. Grants are
     * fetched only while never fetched; an empty list answers false at once.
     */
    method CanSkipBinlog(connect: Connector, query: Result<ServerVars>, shown: Result<seq<string>>) returns (b: bool)
      requires Consistent()
      modifies this
      ensures Consistent()
      ensures Settings() == old(Settings())
      ensures b <==> grants.Some? && AnySkipGrant(grants.value)
      ensures old(grants).Some? ==>
                grants == old(grants) && connectionPool == old(connectionPool) && Hydrated() == old(Hydrated())
      ensures old(grants).None? ==>
                grants == if old(Reachable("", "", connect)) && shown.Ok? && shown.value != [] then Some(shown.value) else None
      ensures old(grants).None? ==> ConnectedFrom(old(connectionPool), old(Hydrated()), old(Key("", "")), connect, query)
    {
      if grants.None? {
        HydrateGrants(connect, query, shown);
      }
      if grants.None? {
        return false;
      }
      b := ScanGrants(grants.value);
    }

    // -------------------------------------------------------------------
    // introspectionParams and HasSchema (instance.go:466-525)

    /** introspectionParams: the encoded settings for the hydrated flavor and sql_mode. */
    method IntrospectionParams(connect: Connector, query: Result<ServerVars>) returns (s: string)
      requires Consistent()
      modifies this
      ensures Consistent()
      ensures Settings() == old(Settings()) && grants == old(grants)
      ensures s == EncodeParams(IntrospectionSettings(flavor, sqlMode))
      ensures old(valid) ==> Hydrated() == old(Hydrated()) && connectionPool == old(connectionPool)
      ensures !old(valid) ==> ConnectedFrom(old(connectionPool), old(Hydrated()), old(Key("", "")), connect, query)
    {
      var f := Flavor(connect, query);
      var v := IntrospectionValues(f, sqlMode);
      s := EncodeParams(v);
    }

    /** HasSchema: a connection failure is reported, otherwise the lookup decides. */
    method HasSchema(connect: Connector, query: Result<ServerVars>, lookup: Option<Error>)
      returns (found: bool, err: Option<Error>)
      requires Consistent()
      modifies this
      ensures Consistent()
      ensures Settings() == old(Settings()) && grants == old(grants)
      ensures !old(Reachable("", "", connect)) ==> !found && err == Some(connect(old(Key("", ""))).error)
      ensures old(Reachable("", "", connect)) ==> (found, err) == SchemaExists(lookup)
      ensures ConnectedFrom(old(connectionPool), old(Hydrated()), old(Key("", "")), connect, query)
    {
      var r := CachedConnectionPool("", "", connect, query);
      if r.Err? {
        return false, Some(r.error);
      }
      found, err := SchemaExists(lookup).0, SchemaExists(lookup).1;
    }

    // -------------------------------------------------------------------
    // DropTablesInSchema, DropRoutinesInSchema, DropSchema (instance.go:646-831)

    /**
     * DropTablesInSchema, run as a sequential plan: a connection failure is
     * reported; otherwise PlanTableDrops decides, with the buffer pool size
     * and flavor known once connected.
     */
    method DropTablesInSchema(schema: string, opts: BulkDropOptions, connect: Connector, query: Result<ServerVars>,
                              rows: Result<seq<PartitionRow>>, rowsOf: string -> Result<nat>, exec: Exec, retryExec: Exec)
      returns (err: Option<Error>, log: seq<DropAction>, concurrency: Option<int>)
      requires Consistent()
      modifies this
      ensures Consistent()
      ensures Settings() == old(Settings()) && grants == old(grants)
      ensures Extends(old(connectionPool), connectionPool)
      ensures TableDropsReport(err, log, old(ConnectError(schema, opts.Params(), connect)), opts, rows, rowsOf, exec, retryExec)
      ensures concurrency.Some? <==>
                old(Reachable(schema, opts.Params(), connect)) && rows.Ok? && PartitionMap(rows.value) != map[] &&
                !(opts.onlyIfEmpty && SomeTableNotEmpty(PartitionMap(rows.value), rowsOf))
      ensures concurrency.Some? ==> concurrency == Some(EffectiveConcurrency(opts, bufferPoolSize, flavor))
      ensures err.None? <==> old(Reachable(schema, opts.Params(), connect)) && TablesCleared(opts, rows, rowsOf, exec, retryExec)
      ensures forall k :: k in connectionPool && k !in old(connectionPool) ==>
                k == old(Key(schema, opts.Params())) && connect(k).Ok?
      ensures ConnectedFrom(old(connectionPool), old(Hydrated()), old(Key(schema, opts.Params())), connect, query)
    {
      var r := CachedConnectionPool(schema, opts.Params(), connect, query);
      if r.Err? {
        return Some(r.error), [], None;
      }
      err, log, concurrency := PlanTableDrops(opts, rows, rowsOf, exec, retryExec, bufferPoolSize, flavor);
    }

    /**
     * DropRoutinesInSchema: a connection failure or a failed listing is
     * reported; otherwise every routine is dropped and the first failure is
     * the answer (no routine, no statement).
     */
    method DropRoutinesInSchema(schema: string, opts: BulkDropOptions, connect: Connector, query: Result<ServerVars>,
                                routines: Result<seq<Routine>>, exec: Exec)
      returns (err: Option<Error>, log: seq<DropAction>)
      requires Consistent()
      modifies this
      ensures Consistent()
      ensures Settings() == old(Settings()) && grants == old(grants)
      ensures !old(Reachable(schema, opts.Params(), connect)) ==>
                err == Some(connect(old(Key(schema, opts.Params()))).error) && log == []
      ensures old(Reachable(schema, opts.Params(), connect)) && routines.Err? ==> err == Some(routines.error) && log == []
      ensures old(Reachable(schema, opts.Params(), connect)) && routines.Ok? ==>
                log == RoutineDrops(routines.value) && err == FirstError(log, exec)
      ensures ConnectedFrom(old(connectionPool), old(Hydrated()), old(Key(schema, opts.Params())), connect, query)
    {
      var r := CachedConnectionPool(schema, opts.Params(), connect, query);
      if r.Err? {
        return Some(r.error), [];
      }
      if routines.Err? {
        return Some(routines.error), [];
      }
      if routines.value == [] {
        return None, [];
      }
      err, log := DropRoutines(routines.value, exec);
    }

    /** The eviction loop of DropSchema: the pools keyed by "schema?" leave the cache. */
    method EvictSchema(schema: string)
      requires Consistent()
      modifies this
      ensures connectionPool == Evict(old(connectionPool), schema + "?")
      ensures Consistent()
      ensures Settings() == old(Settings()) && Hydrated() == old(Hydrated()) && grants == old(grants)
    {
      var prefix := schema + "?";
      ghost var before := connectionPool;
      var keys := connectionPool.Keys;
      while keys != {}
        invariant keys <= before.Keys
        invariant connectionPool == map k | k in before && (k in keys || !HasPrefix(k, prefix)) :: before[k]
        invariant Settings() == old(Settings()) && Hydrated() == old(Hydrated()) && grants == old(grants)
        decreases |keys|
      {
        var key :| key in keys;
        if HasPrefix(key, prefix) {
          connectionPool := connectionPool - {key};
        }
        keys := keys - {key};
        assert connectionPool == map k | k in before && (k in keys || !HasPrefix(k, prefix)) :: before[k];
      }
      assert connectionPool == Evict(before, prefix);
    }

    /**
     * DropSchema: drop every table (refusing, with OnlyIfEmpty, when some
     * table holds rows), then the schema itself through a pool with the drop
     * options. Any failure is returned and evicts nothing; on success every
     * pool keyed by the schema is evicted and every other cached pool is
     * untouched.
     */
    method DropSchema(schema: string, opts: BulkDropOptions, connect: Connector, query: Result<ServerVars>,
                      rows: Result<seq<PartitionRow>>, rowsOf: string -> Result<nat>, exec: Exec, retryExec: Exec,
                      dropDatabase: Option<Error>)
      returns (err: Option<Error>, log: seq<DropAction>)
      requires Consistent()
      modifies this
      ensures Consistent()
      ensures Settings() == old(Settings()) && grants == old(grants)
      // OnlyIfEmpty: a table with rows, or one that cannot be checked, is an error and nothing is dropped
      ensures opts.onlyIfEmpty && rows.Ok? && SomeTableNotEmpty(PartitionMap(rows.value), rowsOf) ==> err.Some? && log == []
      // failed table drops are the answer
      ensures var tablesErr := old(ConnectError(schema, opts.Params(), connect));
              tablesErr.Some? || !TablesCleared(opts, rows, rowsOf, exec, retryExec) ==>
                TableDropsReport(err, log, tablesErr, opts, rows, rowsOf, exec, retryExec)
      // once the tables are gone: the server-level pool's error, else the DROP DATABASE error
      ensures var tablesErr := old(ConnectError(schema, opts.Params(), connect));
              var serverErr := old(ConnectError("", opts.Params(), connect));
              tablesErr.None? && TablesCleared(opts, rows, rowsOf, exec, retryExec) ==>
                TableDropsReport(None, log, tablesErr, opts, rows, rowsOf, exec, retryExec) &&
                err == if serverErr.Some? then serverErr else dropDatabase
      // the cache: a failure evicts nothing; success evicts the schema's pools and nothing else
      ensures err.Some? ==> Extends(old(connectionPool), connectionPool)
      ensures err.None? ==> SchemaEvicted(old(connectionPool), connectionPool, schema + "?", old(Key("", opts.Params())))
      // the state: the schema's pool is asked for first, then (once the tables are cleared) the server-level pool
      ensures var first := CachedConnect(old(connectionPool), old(Hydrated()), old(Key(schema, opts.Params())), connect, query);
              old(ConnectError(schema, opts.Params(), connect)).Some? || !TablesCleared(opts, rows, rowsOf, exec, retryExec) ==>
                (connectionPool, Hydrated()) == first
      ensures var first := CachedConnect(old(connectionPool), old(Hydrated()), old(Key(schema, opts.Params())), connect, query);
              var second := CachedConnect(first.0, first.1, old(Key("", opts.Params())), connect, query);
              old(ConnectError(schema, opts.Params(), connect)).None? && TablesCleared(opts, rows, rowsOf, exec, retryExec) ==>
                Hydrated() == second.1 && connectionPool == if err.Some? then second.0 else Evict(second.0, schema + "?")
    {
      ghost var serverKey := Key("", opts.Params());
      ghost var serverErr := ConnectError("", opts.Params(), connect);
      ghost var schemaKey := Key(schema, opts.Params());
      ghost var tablesErr := ConnectError(schema, opts.Params(), connect);
      var concurrency;
      err, log, concurrency := DropTablesInSchema(schema, opts, connect, query, rows, rowsOf, exec, retryExec);
      TableDropsReportClean(err, log, tablesErr, opts, rows, rowsOf, exec, retryExec);
      if err.Some? {
        return;
      }
      ghost var middle := connectionPool;
      assert Key("", opts.Params()) == serverKey;
      assert ConnectError("", opts.Params(), connect) == serverErr;
      err := DropEmptiedSchema(schema, opts, connect, query, dropDatabase, serverKey);
      if err.Some? {
        ExtendsTrans(old(connectionPool), middle, connectionPool);
      } else {
        SchemaEvictedAfterGrowth(old(connectionPool), middle, connectionPool, schema + "?", schemaKey, serverKey);
      }
    }

    /**
     * The rest of DropSchema once its tables are gone: DROP DATABASE through
     * the server-level pool (whose cache key is `serverKey`), then the
     * eviction of every pool keyed by the schema.
     */
    method DropEmptiedSchema(schema: string, opts: BulkDropOptions, connect: Connector, query: Result<ServerVars>,
                             dropDatabase: Option<Error>, ghost serverKey: string)
      returns (err: Option<Error>)
      requires Consistent()
      requires serverKey == Key("", opts.Params())
      modifies this
      ensures Consistent()
      ensures Settings() == old(Settings()) && grants == old(grants)
      ensures err == if old(ConnectError("", opts.Params(), connect)).Some? then old(ConnectError("", opts.Params(), connect))
                     else dropDatabase
      ensures err.Some? ==> Extends(old(connectionPool), connectionPool)
      ensures err.None? ==> SchemaEvicted(old(connectionPool), connectionPool, schema + "?", serverKey)
      ensures var server := CachedConnect(old(connectionPool), old(Hydrated()), serverKey, connect, query);
              Hydrated() == server.1 && connectionPool == if err.Some? then server.0 else Evict(server.0, schema + "?")
    {
      var r := CachedConnectionPool("", opts.Params(), connect, query);
      if r.Err? {
        return Some(r.error);
      }
      if dropDatabase.Some? {
        return dropDatabase;
      }
      ghost var afterLookup := connectionPool;
      assert forall k :: k in afterLookup ==> k in old(connectionPool) || k == serverKey;
      EvictSchema(schema);
      err := None;
    }
  }
}
