/**
 * The decisions instance.go makes about values, apart from the Instance
 * object that holds them: the limits put on every connection pool, what a
 * successful hydration query leaves behind, the session parameters used
 * for introspection, the meaning of the schema lookups, and which cached
 * pools a dropped schema takes with it.
 */
module InstanceRules {
  import opened Outcomes
  import opened Text
  import opened Flavors
  import opened Params

  // ---------------------------------------------------------------------
  // Pool limits (instance.go:168-188)

  /**
   * The SetMaxOpenConns decision: no limit while the server's is unknown,
   * otherwise ten connections of headroom below it, but never fewer than two.
   */
  function MaxOpenConns(maxUserConns: int): (n: Option<int>)
    ensures n.None? <==> maxUserConns <= 0
    ensures n.Some? ==> n.value >= 2
    ensures n.Some? && maxUserConns >= 12 ==> n.value + 10 == maxUserConns
    ensures n.Some? && maxUserConns < 12 ==> n.value == 2
  {
    if maxUserConns <= 0 then None
    else if maxUserConns < 12 then Some(2)
    else Some(maxUserConns - 10)
  }

  /** A higher server limit never gives a lower pool limit. */
  lemma MaxOpenConnsMonotone(a: int, b: int)
    requires 0 < a <= b
    ensures MaxOpenConns(a).value <= MaxOpenConns(b).value
  {
  }

  /**
   * SetConnMaxLifetime in milliseconds: at most 30 seconds, and strictly
   * below a known wait_timeout so that the server never closes a connection
   * the pool still counts as live.
   */
  function MaxLifetimeMs(waitTimeout: int): (ms: int)
    ensures 0 < ms <= 30000
    ensures waitTimeout >= 1 ==> ms < waitTimeout * 1000
    ensures waitTimeout <= 0 || waitTimeout > 30 ==> ms == 30000
    ensures 1 < waitTimeout <= 30 ==> ms + 1000 == waitTimeout * 1000
    ensures waitTimeout == 1 ==> ms == 900
  {
    if 1 < waitTimeout <= 30 then (waitTimeout - 1) * 1000
    else if waitTimeout == 1 then 900
    else 30000
  }

  /** Over known timeouts, a longer wait_timeout never shortens the lifetime. */
  lemma MaxLifetimeMonotone(a: int, b: int)
    requires 1 <= a <= b
    ensures MaxLifetimeMs(a) <= MaxLifetimeMs(b)
  {
  }

  // ---------------------------------------------------------------------
  // hydrateVars (instance.go:264-307)

  /** One row of the hydration query. */
  datatype ServerVars = ServerVars(
    versionComment: string,   // @@global.version_comment
    version: string,          // @@global.version
    sqlMode: string,          // @@session.sql_mode
    waitTimeout: int,         // @@session.wait_timeout
    bufferPoolSize: int,      // @@global.innodb_buffer_pool_size
    maxUserConns: int,        // @@session.max_user_connections
    maxConns: int)            // @@global.max_connections

  /** The fields of an Instance that hydration writes. */
  datatype Hydration = Hydration(
    valid: bool,
    flavor: Flavor,
    version: Triple,
    sqlMode: seq<string>,
    waitTimeout: int,
    maxUserConns: int,
    bufferPoolSize: int)

  /** The connection limit that applies: the user's own when one is set, else the server's. */
  function ConnectionLimit(vars: ServerVars): (n: int)
    ensures n == vars.maxUserConns || n == vars.maxConns
    ensures vars.maxUserConns > 0 ==> n == vars.maxUserConns
    ensures n > 0 <==> vars.maxUserConns > 0 || vars.maxConns > 0
  {
    if vars.maxUserConns > 0 then vars.maxUserConns else vars.maxConns
  }

  /**
   * hydrateVars over the query's outcome: nothing changes once hydrated or
   * when the query fails; a first successful query makes the instance valid
   * and records what it read.
   */
  function Hydrate(h: Hydration, query: Result<ServerVars>): (h2: Hydration)
    ensures h.valid || query.Err? ==> h2 == h
    ensures h2.valid <==> h.valid || query.Ok?
    ensures h.version == h.flavor.Version() ==> h2.version == h2.flavor.Version()
    ensures !h.valid && query.Ok? ==>
              h2.flavor == ParseFlavor(query.value.version, query.value.versionComment) &&
              h2.version == ParseVersion(query.value.version) &&
              Join(h2.sqlMode, ',') == query.value.sqlMode &&
              |h2.sqlMode| >= 1 && (forall i :: 0 <= i < |h2.sqlMode| ==> ',' !in h2.sqlMode[i]) &&
              h2.waitTimeout == query.value.waitTimeout &&
              h2.bufferPoolSize == query.value.bufferPoolSize &&
              h2.maxUserConns == ConnectionLimit(query.value)
  {
    if h.valid || query.Err? then h
    else
      var vars := query.value;
      JoinSplit(vars.sqlMode, ',');
      Hydration(true, ParseFlavor(vars.version, vars.versionComment), ParseVersion(vars.version),
                Split(vars.sqlMode, ','), vars.waitTimeout, ConnectionLimit(vars), vars.bufferPoolSize)
  }

  /** Hydration happens at most once: after a success, later queries change nothing. */
  lemma HydrateOnce(h: Hydration, first: Result<ServerVars>, later: Result<ServerVars>)
    requires first.Ok?
    ensures Hydrate(Hydrate(h, first), later) == Hydrate(h, first)
  {
  }

  // ---------------------------------------------------------------------
  // introspectionParams (instance.go:500-525)

  /** The modes that break SHOW CREATE parsing: ANSI and ANSI_QUOTES, and NO_..._OPTIONS. */
  predicate Problematic(mode: string) {
    HasPrefix(mode, "ANSI") || (HasPrefix(mode, "NO_") && HasSuffix(mode, "_OPTIONS"))
  }

  /** The modes kept, in their original order. */
  function KeptModes(modes: seq<string>): (kept: seq<string>)
    ensures |kept| <= |modes|
    ensures forall m :: m in kept ==> m in modes && !Problematic(m)
    ensures forall m :: m in modes && !Problematic(m) ==> m in kept
    ensures |kept| == |modes| <==> forall i :: 0 <= i < |modes| ==> !Problematic(modes[i])
  {
    if modes == [] then []
    else
      var init := modes[..|modes| - 1];
      var last := modes[|modes| - 1];
      assert forall m :: m in modes <==> m in init || m == last;
      var rest := KeptModes(init);
      if Problematic(last) then
        assert |rest| <= |init| < |modes|;
        rest
      else
        assert (forall i :: 0 <= i < |modes| ==> !Problematic(modes[i])) <==>
               (forall i :: 0 <= i < |init| ==> !Problematic(init[i]));
        rest + [last]
  }

  /** The filtering loop of introspectionParams. */
  method KeepModes(modes: seq<string>) returns (kept: seq<string>)
    ensures kept == KeptModes(modes)
  {
    kept := [];
    var i := 0;
    while i < |modes|
      invariant 0 <= i <= |modes|
      invariant kept == KeptModes(modes[..i])
    {
      assert modes[..i + 1][..i] == modes[..i];
      if !Problematic(modes[i]) {
        kept := kept + [modes[i]];
      }
      i := i + 1;
    }
    assert modes[..i] == modes;
  }

  /** Some mode of the session was dropped. */
  predicate DropsSomeMode(modes: seq<string>) {
    exists i :: 0 <= i < |modes| && Problematic(modes[i])
  }

  /**
   * The session parameters for SHOW CREATE and information_schema queries:
   * identifiers always quoted, statistics never cached on a server with a
   * data dictionary, and sql_mode overridden only when some mode had to go.
   */
  function IntrospectionSettings(flavor: Flavor, sqlMode: seq<string>): (v: Params)
    ensures v.Keys <= {"sql_quote_show_create", "information_schema_stats_expiry", "sql_mode"}
    ensures "sql_quote_show_create" in v && v["sql_quote_show_create"] == "1"
    ensures "information_schema_stats_expiry" in v <==> flavor.HasDataDictionary()
    ensures "information_schema_stats_expiry" in v ==> v["information_schema_stats_expiry"] == "0"
    ensures "sql_mode" in v <==> DropsSomeMode(sqlMode)
    ensures "sql_mode" in v ==> v["sql_mode"] == "'" + Join(KeptModes(sqlMode), ',') + "'"
  {
    var base := map["sql_quote_show_create" := "1"];
    var withStats := if flavor.HasDataDictionary() then base["information_schema_stats_expiry" := "0"] else base;
    var kept := KeptModes(sqlMode);
    if |kept| != |sqlMode| then withStats["sql_mode" := "'" + Join(kept, ',') + "'"] else withStats
  }

  /** introspectionParams before encoding: the three Values.Set calls and the mode filter. */
  method IntrospectionValues(flavor: Flavor, sqlMode: seq<string>) returns (v: Params)
    ensures v == IntrospectionSettings(flavor, sqlMode)
  {
    v := map[];
    v := v["sql_quote_show_create" := "1"];
    if flavor.HasDataDictionary() {
      v := v["information_schema_stats_expiry" := "0"];
    }
    var kept := KeepModes(sqlMode);
    if |kept| != |sqlMode| {
      v := v["sql_mode" := "'" + Join(kept, ',') + "'"];
    }
  }

  /** Rows of TestInstanceIntrospectionParams: an empty sql_mode splits into one empty mode. */
  lemma IntrospectionEmptyMode()
    ensures IntrospectionSettings(FlavorMySQL57, [""]) == map["sql_quote_show_create" := "1"]
    ensures IntrospectionSettings(FlavorMySQL80, [""]) ==
            map["sql_quote_show_create" := "1", "information_schema_stats_expiry" := "0"]
  {
    assert !Problematic("");
    assert KeptModes([""]) == [""] by {
      assert [""][..0] == [];
    }
  }

  /** A mismatch at position `i` rules a prefix out. */
  lemma NotPrefixAt(s: string, p: string, i: nat)
    requires i < |p| && i < |s| && s[i] != p[i]
    ensures !HasPrefix(s, p)
  {
    if |p| <= |s| {
      assert s[..|p|][i] != p[i];
    }
  }

  /** A mismatch at position `j` of where the suffix would start rules it out. */
  lemma NotSuffixAt(s: string, p: string, j: nat)
    requires j < |p| <= |s| && s[|s| - |p| + j] != p[j]
    ensures !HasSuffix(s, p)
  {
    assert s[|s| - |p|..][j] != p[j];
  }

  lemma StrictModesKept()
    ensures !Problematic("STRICT_TRANS_TABLES")
    ensures !Problematic("NO_ZERO_IN_DATE")
    ensures !Problematic("NO_ZERO_DATE")
  {
    NotPrefixAt("STRICT_TRANS_TABLES", "ANSI", 0);
    NotPrefixAt("STRICT_TRANS_TABLES", "NO_", 0);
    NotPrefixAt("NO_ZERO_IN_DATE", "ANSI", 0);
    NotSuffixAt("NO_ZERO_IN_DATE", "_OPTIONS", 7);
    NotPrefixAt("NO_ZERO_DATE", "ANSI", 0);
    NotSuffixAt("NO_ZERO_DATE", "_OPTIONS", 7);
  }

  lemma IntrospectionStrictModes()
    ensures !DropsSomeMode(["STRICT_TRANS_TABLES", "NO_ZERO_IN_DATE", "NO_ZERO_DATE"])
  {
    StrictModesKept();
  }

  /** The filter one mode at a time: a problematic mode is skipped, any other appended. */
  lemma KeptModesStep(modes: seq<string>, m: string)
    ensures KeptModes(modes + [m]) == if Problematic(m) then KeptModes(modes) else KeptModes(modes) + [m]
  {
    assert (modes + [m])[..|modes|] == modes;
  }

  lemma IntrospectionAnsiQuotes()
    ensures IntrospectionSettings(FlavorMariaDB105, ["ANSI_QUOTES"]) == map["sql_quote_show_create" := "1", "sql_mode" := "''"]
  {
    assert "ANSI_QUOTES"[..4] == "ANSI";
    KeptModesStep([], "ANSI_QUOTES");
    assert [] + ["ANSI_QUOTES"] == ["ANSI_QUOTES"];
    assert !FlavorMariaDB105.HasDataDictionary();
    assert "'" + Join([], ',') + "'" == "''";
  }

  lemma NoOptionsModes()
    ensures Problematic("NO_FIELD_OPTIONS")
    ensures Problematic("NO_KEY_OPTIONS")
    ensures Problematic("NO_TABLE_OPTIONS")
    ensures !Problematic("NO_BACKSLASH_ESCAPES")
  {
    assert "NO_FIELD_OPTIONS"[..3] == "NO_" && "NO_FIELD_OPTIONS"[8..] == "_OPTIONS";
    assert "NO_KEY_OPTIONS"[..3] == "NO_" && "NO_KEY_OPTIONS"[6..] == "_OPTIONS";
    assert "NO_TABLE_OPTIONS"[..3] == "NO_" && "NO_TABLE_OPTIONS"[8..] == "_OPTIONS";
    NotPrefixAt("NO_BACKSLASH_ESCAPES", "ANSI", 0);
    NotSuffixAt("NO_BACKSLASH_ESCAPES", "_OPTIONS", 1);
  }

  /** The first two modes of the NO_*_OPTIONS row: only NO_BACKSLASH_ESCAPES is kept. */
  lemma NoOptionsFirstTwo()
    ensures KeptModes(["NO_FIELD_OPTIONS", "NO_BACKSLASH_ESCAPES"]) == ["NO_BACKSLASH_ESCAPES"]
  {
    NoOptionsModes();
    KeptModesStep([], "NO_FIELD_OPTIONS");
    KeptModesStep(["NO_FIELD_OPTIONS"], "NO_BACKSLASH_ESCAPES");
    assert [] + ["NO_FIELD_OPTIONS"] == ["NO_FIELD_OPTIONS"];
    assert ["NO_FIELD_OPTIONS"] + ["NO_BACKSLASH_ESCAPES"] == ["NO_FIELD_OPTIONS", "NO_BACKSLASH_ESCAPES"];
    assert [] + ["NO_BACKSLASH_ESCAPES"] == ["NO_BACKSLASH_ESCAPES"];
  }

  lemma IntrospectionNoOptions()
    ensures KeptModes(["NO_FIELD_OPTIONS", "NO_BACKSLASH_ESCAPES", "NO_KEY_OPTIONS", "NO_TABLE_OPTIONS"]) == ["NO_BACKSLASH_ESCAPES"]
    ensures Join(["NO_BACKSLASH_ESCAPES"], ',') == "NO_BACKSLASH_ESCAPES"
  {
    NoOptionsKept();
  }

  lemma NoOptionsFirstThree()
    ensures KeptModes(["NO_FIELD_OPTIONS", "NO_BACKSLASH_ESCAPES", "NO_KEY_OPTIONS"]) == ["NO_BACKSLASH_ESCAPES"]
  {
    NoOptionsModes();
    NoOptionsFirstTwo();
    KeptModesStep(["NO_FIELD_OPTIONS", "NO_BACKSLASH_ESCAPES"], "NO_KEY_OPTIONS");
    assert ["NO_FIELD_OPTIONS", "NO_BACKSLASH_ESCAPES"] + ["NO_KEY_OPTIONS"] ==
           ["NO_FIELD_OPTIONS", "NO_BACKSLASH_ESCAPES", "NO_KEY_OPTIONS"];
  }

  /** All four modes of the NO_*_OPTIONS row: the three NO_*_OPTIONS are dropped. */
  lemma NoOptionsKept()
    ensures KeptModes(["NO_FIELD_OPTIONS", "NO_BACKSLASH_ESCAPES", "NO_KEY_OPTIONS", "NO_TABLE_OPTIONS"]) == ["NO_BACKSLASH_ESCAPES"]
  {
    NoOptionsModes();
    NoOptionsFirstThree();
    KeptModesStep(["NO_FIELD_OPTIONS", "NO_BACKSLASH_ESCAPES", "NO_KEY_OPTIONS"], "NO_TABLE_OPTIONS");
    assert ["NO_FIELD_OPTIONS", "NO_BACKSLASH_ESCAPES", "NO_KEY_OPTIONS"] + ["NO_TABLE_OPTIONS"] ==
           ["NO_FIELD_OPTIONS", "NO_BACKSLASH_ESCAPES", "NO_KEY_OPTIONS", "NO_TABLE_OPTIONS"];
  }

  lemma PlainModes()
    ensures !Problematic("REAL_AS_FLOAT") && !Problematic("PIPES_AS_CONCAT")
    ensures !Problematic("IGNORE_SPACE") && !Problematic("ONLY_FULL_GROUP_BY")
    ensures Problematic("ANSI_QUOTES") && Problematic("ANSI")
  {
    NotPrefixAt("REAL_AS_FLOAT", "ANSI", 0);
    NotPrefixAt("REAL_AS_FLOAT", "NO_", 0);
    NotPrefixAt("PIPES_AS_CONCAT", "ANSI", 0);
    NotPrefixAt("PIPES_AS_CONCAT", "NO_", 0);
    NotPrefixAt("IGNORE_SPACE", "ANSI", 0);
    NotPrefixAt("IGNORE_SPACE", "NO_", 0);
    NotPrefixAt("ONLY_FULL_GROUP_BY", "ANSI", 0);
    NotPrefixAt("ONLY_FULL_GROUP_BY", "NO_", 0);
    assert "ANSI_QUOTES"[..4] == "ANSI";
    assert "ANSI"[..4] == "ANSI";
  }

  /** Three modes of which only the last is problematic keep the first two. */
  lemma KeptModesThree(m1: string, m2: string, m3: string)
    requires !Problematic(m1) && !Problematic(m2) && Problematic(m3)
    ensures KeptModes([m1, m2, m3]) == [m1, m2]
  {
    KeptModesStep([], m1);
    assert [] + [m1] == [m1];
    KeptModesStep([m1], m2);
    assert [m1] + [m2] == [m1, m2];
    KeptModesStep([m1, m2], m3);
    assert [m1, m2] + [m3] == [m1, m2, m3];
  }

  lemma KeptModesFour(m1: string, m2: string, m3: string, m4: string)
    requires !Problematic(m1) && !Problematic(m2) && Problematic(m3) && !Problematic(m4)
    ensures KeptModes([m1, m2, m3, m4]) == [m1, m2, m4]
  {
    KeptModesThree(m1, m2, m3);
    KeptModesStep([m1, m2, m3], m4);
    assert [m1, m2, m3] + [m4] == [m1, m2, m3, m4];
  }

  lemma KeptModesFive(m1: string, m2: string, m3: string, m4: string, m5: string)
    requires !Problematic(m1) && !Problematic(m2) && Problematic(m3) && !Problematic(m4) && !Problematic(m5)
    ensures KeptModes([m1, m2, m3, m4, m5]) == [m1, m2, m4, m5]
  {
    KeptModesFour(m1, m2, m3, m4);
    KeptModesStep([m1, m2, m3, m4], m5);
    assert [m1, m2, m3, m4] + [m5] == [m1, m2, m3, m4, m5];
  }

  /** The shape of that row: the third and sixth modes problematic, the rest not. */
  lemma KeptModesSix(m1: string, m2: string, m3: string, m4: string, m5: string, m6: string)
    requires !Problematic(m1) && !Problematic(m2) && Problematic(m3)
    requires !Problematic(m4) && !Problematic(m5) && Problematic(m6)
    ensures KeptModes([m1, m2, m3, m4, m5, m6]) == [m1, m2, m4, m5]
  {
    KeptModesFive(m1, m2, m3, m4, m5);
    KeptModesStep([m1, m2, m3, m4, m5], m6);
    assert [m1, m2, m3, m4, m5] + [m6] == [m1, m2, m3, m4, m5, m6];
  }

  /** Both ANSI modes go; the other four stay in order. */
  lemma IntrospectionAnsiModes()
    ensures KeptModes(["REAL_AS_FLOAT", "PIPES_AS_CONCAT", "ANSI_QUOTES", "IGNORE_SPACE", "ONLY_FULL_GROUP_BY", "ANSI"]) ==
            ["REAL_AS_FLOAT", "PIPES_AS_CONCAT", "IGNORE_SPACE", "ONLY_FULL_GROUP_BY"]
  {
    PlainModes();
    KeptModesSix("REAL_AS_FLOAT", "PIPES_AS_CONCAT", "ANSI_QUOTES", "IGNORE_SPACE", "ONLY_FULL_GROUP_BY", "ANSI");
  }

  // ---------------------------------------------------------------------
  // Schema and HasSchema (instance.go:454-488)

  /**
   * Schema(name) over the outcome of the filtered listing (schemas reduced
   * to their names): a failure passes through, nothing found is ErrNoRows.
   */
  function SchemaNamed(found: Result<seq<string>>): (r: Result<string>)
    ensures found.Err? ==> r == Err(found.error)
    ensures found == Ok([]) ==> r == Err(NoRows)
    ensures found.Ok? && found.value != [] ==> r == Ok(found.value[0])
    ensures r.Ok? <==> found.Ok? && found.value != []
  {
    match found
    case Err(e) => Err(e)
    case Ok(names) => if names == [] then Err(NoRows) else Ok(names[0])
  }

  /**
   * HasSchema over the outcome of `SELECT 1 ... WHERE schema_name = ?`:
   * a row means yes, ErrNoRows means a clean no, any other failure is
   * reported because existence could not be decided.
   */
  function SchemaExists(query: Option<Error>): (r: (bool, Option<Error>))
    ensures r.0 <==> query.None?
    ensures r.1.Some? <==> query.Some? && query.value != NoRows
    ensures r.1.Some? ==> r.1 == query
    ensures r.0 ==> r.1.None?
  {
    match query
    case None => (true, None)
    case Some(e) => if e == NoRows then (false, None) else (false, Some(e))
  }

  // ---------------------------------------------------------------------
  // The pool eviction of DropSchema (instance.go:670-678)

  /** The cache without the entries whose key starts with `prefix`. */
  function Evict<P>(cache: map<string, P>, prefix: string): (r: map<string, P>)
    ensures forall k :: k in r <==> k in cache && !HasPrefix(k, prefix)
    ensures forall k :: k in r ==> r[k] == cache[k]
  {
    map k | k in cache && !HasPrefix(k, prefix) :: cache[k]
  }

  /** A dropped schema takes every pool keyed by it, whatever its parameters. */
  lemma EvictDropsSchema<P>(cache: map<string, P>, schema: string, fullParams: string)
    ensures CacheKey(schema, fullParams) !in Evict(cache, schema + "?")
  {
  }

  /** Pools of any other '?'-free schema survive. */
  lemma EvictKeepsOtherSchemas<P>(cache: map<string, P>, schema: string, other: string, fullParams: string)
    requires '?' !in schema && '?' !in other && schema != other
    requires CacheKey(other, fullParams) in cache
    ensures CacheKey(other, fullParams) in Evict(cache, schema + "?")
  {
    var key := CacheKey(other, fullParams);
    var prefix := schema + "?";
    if |schema| < |other| {
      assert key[|schema|] == other[|schema|] != '?';
      NotPrefixAt(key, prefix, |schema|);
    } else if |schema| > |other| {
      assert schema[|other|] in schema;
      NotPrefixAt(key, prefix, |other|);
    } else {
      var i :| 0 <= i < |schema| && schema[i] != other[i];
      NotPrefixAt(key, prefix, i);
    }
  }
}
