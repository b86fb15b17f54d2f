# Instance and Flavor model

A Dafny model of the core of a MySQL/MariaDB schema-management library:

- **Flavor** (module `Flavors`). A database server's vendor (MySQL, Percona Server, MariaDB or unknown) and its version triple. It covers how both are read from `@@version` and `@@version_comment`, how a flavor prints and parses as `vendor:major.minor[.patch]`, and the feature predicates that depend on vendor and version. Every table-driven test of `flavor_test.go` is restated as a lemma in `FlavorTables`. The implementation file `flavor.go` is not part of this model's citations: the functions follow the behaviour those tests pin down.
- **Instance** (module `Instances`, with pure rules in `InstanceRules`, `Params`, `Grants` and `BulkDrop`). One database server as the library sees it:
  - its default connection parameters;
  - its cache of connection pools, keyed by `schema?params`;
  - the server variables it reads once ("hydration") and the grants it reads once;
  - the decisions it takes when it opens pools, answers feature questions, builds introspection session settings, and drops tables, routines and schemas.

The network, the database driver and the server's answers are parameters of the methods:

- A connector maps a cache key to a pool id or an error.
- The result of the variables query, of `SHOW GRANTS`, of the information-schema queries, and of each DDL statement is an oracle argument.

A method therefore states what the instance does for *every* possible server answer.

Modules:

| file | module | what |
|---|---|---|
| outcomes.dfy | `Outcomes` | Option, Result, the error kinds (a MySQL server error with its code, no rows, …) |
| text.dfy | `Text` | strings: case folding, containment, split/join, decimal digits, sorted keys |
| flavor.dfy | `Flavors` | vendors, versions, flavors, feature predicates |
| flavor_tables.dfy | `FlavorTables` | the rows of `flavor_test.go` |
| params.dfy | `Params` | query-string parameters: encode, decode, merge, cache keys |
| grants.dfy | `Grants` | the privilege patterns that allow skipping the binary log |
| bulkdrop.dfy | `BulkDrop` | bulk-drop options, the partition map, the per-table drop, deadlock retries, routines, the emptiness check |
| instance_rules.dfy | `InstanceRules` | pool limits, hydration, sql_mode filtering, introspection settings, schema lookups, pool eviction |
| instance.dfy | `Instances` | the `Instance` class and its methods |

## Model

| member | source | states |
|---|---|---|
| Flavors.ParseVendor | flavor_test.go:7-22 | the vendor is MariaDB iff the lower-cased comment contains "mariadb"; Percona iff it contains "percona" and not "mariadb"; MySQL iff it contains "mysql" and neither of the others; a known vendor's own name always occurs in the comment |
| Flavors.ParseVendorIgnoresCase | flavor_test.go:7-22 | classification is unchanged by lower-casing the comment |
| Flavors.MariaDBKeywordWins | flavor_test.go:7-22 | a "MariaDB" keyword in any letter case, anywhere, makes the vendor MariaDB whatever else the comment says |
| FlavorTables.ParseVendorTable | flavor_test.go:7-22 | each row of TestParseVendor gives its expected vendor |
| Flavors.ParseVersion | flavor_test.go:24-44 | every field is in 0..2^63-1; a non-zero result is exactly the three leading dotted fields before any '-' |
| Flavors.ParseVersionRoundTrip | flavor_test.go:24-44 | a printed triple followed by any '-' suffix parses back to that triple |
| Flavors.TooFewFieldsGiveZero | flavor_test.go:24-44 | fewer than three dotted fields give version 0.0.0 |
| FlavorTables.ParseVersionTable | flavor_test.go:24-44 | each row of TestParseVersion, including vendor suffixes and "invalid", gives its expected triple |
| Flavors.ParseFlavor | flavor_test.go:46-74 | the version is ParseVersion's; a vendor named in the comment wins; otherwise major 10 implies MariaDB, 5 or 8 implies MySQL, and anything else is unknown |
| Flavors.ParseFlavorUnknownIffNoVersion | flavor_test.go:46-74 | without a vendor keyword, the result is the unknown flavor iff the version did not parse |
| Flavors.ParseFlavorKnown | flavor_test.go:46-74 | a parsed flavor is known iff its major version is non-zero and a vendor was named or implied by the major version |
| FlavorTables.ParseFlavorTable | flavor_test.go:46-74 | each row of TestParseFlavor gives its expected flavor |
| FlavorTables.ParseFlavorUnparseable | flavor_test.go:46-74 | "webscalesql" as both version and comment gives the unknown flavor |
| Flavors.NewFlavor | flavor_test.go:76-116 | the vendor is the keyword found in the base string; explicit version parts replace the base's version; missing parts are 0 |
| Flavors.VendorOfName | flavor_test.go:76-116 | each vendor's printed name, followed by letter-free text, classifies back as that vendor |
| Flavors.StringRoundTrip | flavor_test.go:76-116 | NewFlavor of a flavor's string form is the same flavor |
| FlavorTables.NewFlavorRow1 | flavor_test.go:86 | NewFlavor of mysql with 5.6.40 gives MySQL 5.6.40, "mysql:5.6.40", supported and known |
| FlavorTables.NewFlavorRow2 | flavor_test.go:87 | NewFlavor of "mysql:5.7" gives FlavorMySQL57, "mysql:5.7", supported and known |
| FlavorTables.NewFlavorRow3 | flavor_test.go:88 | NewFlavor of "mysql:5.5.49" gives MySQL 5.5.49, "mysql:5.5.49", supported and known |
| FlavorTables.NewFlavorRow4 | flavor_test.go:89 | NewFlavor of mysql with 8.0.11 gives MySQL 8.0.11, "mysql:8.0.11", supported and known |
| FlavorTables.NewFlavorRow5 | flavor_test.go:90 | NewFlavor of "mysql:8" gives FlavorMySQL80, "mysql:8.0", supported and known |
| FlavorTables.NewFlavorRow6 | flavor_test.go:91 | NewFlavor of mysql with 8.1.2 gives MySQL 8.1.2, "mysql:8.1.2", known but not supported |
| FlavorTables.NewFlavorRow7 | flavor_test.go:92 | NewFlavor of percona with 5.6 gives FlavorPercona56, "percona:5.6", supported and known |
| FlavorTables.NewFlavorRow8 | flavor_test.go:93 | NewFlavor of "percona:5.7" gives FlavorPercona57, "percona:5.7", supported and known |
| FlavorTables.NewFlavorRow9 | flavor_test.go:94 | NewFlavor of percona with no version gives Percona 0.0.0, "percona:0.0", neither supported nor known |
| FlavorTables.NewFlavorRow10 | flavor_test.go:95 | NewFlavor of percona with 8.0.12 gives Percona 8.0.12, "percona:8.0.12", supported and known |
| FlavorTables.NewFlavorRow11 | flavor_test.go:96 | NewFlavor of mariadb with 10.1.10 gives MariaDB 10.1.10, "mariadb:10.1.10", supported and known |
| FlavorTables.NewFlavorRow12 | flavor_test.go:97 | NewFlavor of "mariadb:10.2" gives FlavorMariaDB102, "mariadb:10.2", supported and known |
| FlavorTables.NewFlavorRow13 | flavor_test.go:98 | NewFlavor of mariadb with 10.3 gives FlavorMariaDB103, "mariadb:10.3", supported and known |
| FlavorTables.NewFlavorRow14 | flavor_test.go:99 | NewFlavor of "10.3.8-MariaDB-log" with 10.3 gives FlavorMariaDB103, "mariadb:10.3", supported and known |
| FlavorTables.NewFlavorRow15 | flavor_test.go:100 | NewFlavor of mariadb with 10 gives MariaDB 10.0.0, "mariadb:10.0", known but not supported |
| FlavorTables.NewFlavorRow16 | flavor_test.go:101 | NewFlavor of "webscalesql" gives FlavorUnknown, "unknown:0.0", neither supported nor known |
| FlavorTables.NewFlavorRow17 | flavor_test.go:102 | NewFlavor of webscalesql with 5.6 gives unknown 5.6.0, "unknown:5.6", neither supported nor known |
| FlavorTables.NewFlavorMajorOnly | flavor_test.go:76-116 | "mysql:8" is MySQL 8.0.0 |
| FlavorTables.NewFlavorUnknown56 | flavor_test.go:266-290 | "unknown:5.6" has no vendor but version 5.6.0 |
| Flavors.VendorMinVersionReflexive | flavor_test.go:118-148 | a flavor meets its own vendor and version, and never a different vendor's |
| Flavors.VendorMinVersionMonotone | flavor_test.go:118-148 | meeting a higher threshold implies meeting every lower one |
| Flavors.MySQLishIsEitherVendor | flavor_test.go:118-148 | MySQLishMinVersion is VendorMinVersion for MySQL or for Percona |
| FlavorTables.VendorMinVersionTable | flavor_test.go:118-148 | each row of TestFlavorVendorMinVersion |
| FlavorTables.TimestampAndDictionaryTable | flavor_test.go:150-192 | each row of TestFlavorFractionalTimestamps and TestFlavorHasDataDictionary |
| FlavorTables.CollationTable | flavor_test.go:194-240 | each row of TestFlavorDefaultUtf8mb4Collation and TestFlavorAlwaysShowTableCollation |
| FlavorTables.GeneratedColumnsTable | flavor_test.go:242-264 | each row of TestFlavorGeneratedColumns |
| Flavors.FeatureImplications | flavor_test.go:150-317 | omitting int display widths implies a data dictionary; a data dictionary implies generated columns and fractional timestamps, and holds iff the default utf8mb4 collation is utf8mb4_0900_ai_ci, iff the table collation is always shown for utf8mb4 |
| Flavors.SortedForeignKeysWindow | flavor_test.go:266-317 | for MySQL and Percona, foreign keys are sorted exactly from 5.6 up to, but not including, 8.0.19 |
| FlavorTables.SortedForeignKeysTable | flavor_test.go:266-290 | each row of TestSortedForeignKeys |
| FlavorTables.SortedForeignKeysUnknown56 | flavor_test.go:266-290 | the row for "unknown:5.6": an unknown vendor sorts foreign keys |
| FlavorTables.OmitIntDisplayWidthTable | flavor_test.go:292-317 | each row of TestOmitIntDisplayWidth |
| Flavors.SupportedIsKnown | flavor_test.go:76-116 | every supported flavor is known |
| Instances.Instance.constructor | instance.go:60-69 | a new instance holds the given address and default parameters, an empty pool cache and no grants, and is not hydrated: the unknown flavor, version 0.0.0, an empty sql_mode and zero wait_timeout, connection limit and buffer pool size |
| Instances.Instance.String | instance.go:87-95 | the text starts with the host; it is the host alone iff there is neither a socket nor a port; a socket is written as host:socket, and otherwise a port as host:port |
| Instances.Instance.HostAndOptionalPort | instance.go:98-103 | a prefix of String(): the bare host for port 3306 or a socket, and String() otherwise |
| Params.DecodeEncode | instance.go:105-115 | decoding encoded parameters gives back the same parameters |
| Params.EncodeInjective | instance.go:105-115 | different parameters never encode to the same text |
| Params.SetAll | instance.go:105-115 | setting each name of one parameter set over another gives their override union |
| Params.MergeParams | instance.go:105-115 | the merged names are those of both sides; the caller's value wins on a collision |
| Params.MergeEncodable | instance.go:105-115 | merging keeps parameters encodable |
| Params.DecodeOnePair | instance.go:105-115 | a single name=value pair decodes to that one parameter |
| Params.DecodeTwoPairs | instance.go:105-115 | two pairs joined by & decode to both parameters, the first winning on a repeated name |
| Instances.Instance.BuildParamString | instance.go:105-115 | the result decodes to the defaults overridden by the caller's parameters (the rows at instance_test.go:106-112) |
| Params.CacheKey | instance.go:139 | the pool key starts with "schema?" |
| Params.CacheKeyParts | instance.go:139 | a '?'-free schema and the parameter text can be read back from the key |
| Params.DistinctRequestsDistinctKeys | instance.go:139 | different schemas or different merged parameters get different cache keys |
| InstanceRules.MaxOpenConns | instance.go:172-178 | no limit iff max_user_connections is at most 0; otherwise at least 2; ten below the server's limit from 12 on, else 2 |
| InstanceRules.MaxOpenConnsMonotone | instance.go:172-178 | a larger server limit never gives a smaller pool limit |
| InstanceRules.MaxLifetimeMs | instance.go:182-188 | the lifetime is in (0, 30s] and always shorter than a positive wait_timeout: a second less from 2 to 30 s, 900 ms at 1 s, 30 s otherwise |
| InstanceRules.MaxLifetimeMonotone | instance.go:182-188 | a longer wait_timeout never gives a shorter lifetime |
| Instances.Instance.RawConnectionPool | instance.go:158-190 | a failed connect changes nothing; a successful one hydrates once and returns a pool with the limits computed from the hydrated variables |
| Instances.Instance.ConnectionPool | instance.go:128-131 | opens the pool under the merged key without caching it: a refused connection returns its error and changes nothing; an accepted one hydrates once and returns the pool with the limits computed from the hydrated variables |
| Instances.Instance.CachedConnectionPool | instance.go:137-151 | a cached key returns its pool unchanged; a miss opens a pool and caches it on success and caches nothing on failure; succeeds iff the key is cached or reachable; the cache only grows; the new cache and hydrated state are exactly CachedConnect of the old ones |
| Instances.CachedConnect | instance.go:137-190 | the cache only grows, by the requested key alone and only when the driver accepts it; a cached key or a refused connection changes nothing; an accepted one hydrates once |
| Instances.Instance.ConnectError | instance.go:137-151 | no error iff the key is cached or the connector accepts it; otherwise the connector's error |
| Instances.Instance.LookupOrOpen | instance.go:139-151 | the cache is consulted under the "schema?params" key: a hit returns the cached pool and changes nothing, a miss opens and caches; the new state is CachedConnect of the old one |
| Instances.Instance.OpenAndCache | instance.go:146-150 | a successful open is added under its key and nothing else in the cache changes |
| InstanceRules.ConnectionLimit | instance.go:302-306 | max_user_connections when positive, max_connections otherwise |
| InstanceRules.Hydrate | instance.go:267-307 | a hydrated instance or a failed query changes nothing; a first successful query sets flavor, version, sql_mode (split on commas into comma-free modes), wait_timeout, buffer pool size and connection limit, and keeps the version equal to the flavor's |
| InstanceRules.HydrateOnce | instance.go:267-307 | once hydrated, later queries change nothing |
| Instances.Instance.HydrateVars | instance.go:267-307 | the new hydrated state is Hydrate of the old one; address, cache and grants are unchanged |
| Instances.Instance.Valid | instance.go:207-215 | true iff already hydrated or the default pool is reachable; any error is returned; a valid instance is unchanged; a first call leaves the cache and hydrated state that CachedConnect gives for the default pool |
| Instances.Instance.CloseAll | instance.go:220-227 | every cached pool is closed (returned) and the cache is left empty; nothing else changes |
| Instances.RemoveEntryValues | instance.go:220-227 | removing one cached entry keeps every other pool, and with it the pools are the old ones |
| Instances.Instance.Flavor | instance.go:232-235 | a hydrated instance is unchanged and returns its flavor; on a first call the cache and hydrated state are those CachedConnect gives for the default pool, and the result is that state's flavor: ParseFlavor of the server's answer when the pool opens and the query succeeds, the stored flavor otherwise |
| Instances.Instance.Version | instance.go:259-262 | returns the stored version, which always equals the flavor's; a hydrated instance is unchanged; on a first call the state is CachedConnect of the old one for the default pool |
| Instances.Instance.ForceFlavor | instance.go:251-254 | replaces flavor and version and nothing else |
| Instances.Instance.SetFlavor | instance.go:240-246 | once a known flavor was detected the call fails with that flavor and changes nothing; otherwise it sets the flavor |
| Grants.MatchFromStart | instance.go:315 | the scanner finds a match iff the grant holds one of the five binlog-skipping privileges followed by a separator |
| Grants.AppendGrant | instance.go:320-330 | adding a grant skips iff the old list did or the new grant does |
| Grants.ScanGrants | instance.go:320-330 | the loop answers true iff some grant matches |
| Grants.TokenFollowedBySeparator | instance.go:315 | any privilege token followed by a separator makes a grant allow skipping |
| Grants.NoTokenNoSkip | instance.go:315 | a grant with none of the five tokens does not allow skipping |
| Grants.BinlogUnderscoreAdmin | instance.go:315 | MySQL's BINLOG_ADMIN, with an underscore, is not MariaDB's BINLOG ADMIN |
| Grants.TwoGrants | instance.go:320-330 | a two-grant list skips iff one of its grants does |
| Grants.SuperGrantSkips | instance_test.go:371-376 | GRANT SUPER allows skipping |
| Grants.BinlogAdminGrantSkips | instance_test.go:371-376 | MariaDB's GRANT BINLOG ADMIN allows skipping |
| Grants.AllPrivilegesGrantSkips | instance_test.go:371-376 | GRANT ALL PRIVILEGES ON *.* allows skipping |
| Grants.SuperListGrantSkips | instance_test.go:373 | the long privilege list with SUPER followed by a comma allows skipping |
| Grants.DynamicPrivilegesGrantSkips | instance_test.go:374 | the dynamic privilege list with SESSION_VARIABLES_ADMIN followed by a comma allows skipping |
| Grants.UsageGrantDoesNotSkip | instance_test.go:357-358 | GRANT USAGE does not |
| Grants.BinlogUnderscoreGrantDoesNotSkip | instance_test.go:357-360 | GRANT BINLOG_ADMIN alone does not |
| Grants.SchemaAllPrivilegesGrantDoesNotSkip | instance_test.go:361 | ALL PRIVILEGES on one schema, not on *.*, does not allow skipping |
| Grants.ProxyGrantDoesNotSkip | instance_test.go:362 | GRANT PROXY does not allow skipping |
| Grants.NoAllPrivilegesOnAll | instance.go:315 | a grant whose only star begins its second half never contains ALL PRIVILEGES ON *.* |
| Grants.CanSkipBinlogEmpty | instance_test.go:350-354 | no grants, no skipping |
| Grants.CanSkipBinlogWithoutPrivilege | instance_test.go:356-368 | USAGE and BINLOG_ADMIN together do not allow skipping |
| Grants.CanSkipBinlogSchemaPrivileges | instance_test.go:356-368 | USAGE and ALL PRIVILEGES on one schema together do not allow skipping |
| Grants.CanSkipBinlogAllPrivileges | instance_test.go:370-385 | a USAGE grant followed by ALL PRIVILEGES allows skipping |
| Grants.CanSkipBinlogBinlogAdmin | instance_test.go:370-385 | a USAGE grant followed by BINLOG ADMIN allows skipping |
| Grants.CanSkipBinlogSuper | instance_test.go:370-385 | a USAGE grant followed by SUPER allows skipping |
| Instances.Instance.HydrateGrants | instance.go:332-340 | grants are recorded only when the default pool is reachable and SHOW GRANTS returns a non-empty list; the cache and hydrated state are CachedConnect of the old ones for the default pool |
| Instances.Instance.CanSkipBinlog | instance.go:320-330 | true iff the (once-read) grants contain a binlog-skipping privilege; grants already read are not read again; when grants are fetched, the cache and hydrated state are CachedConnect of the old ones for the default pool |
| InstanceRules.KeptModes | instance.go:510-520 | the kept modes are exactly the modes that are not problematic, and nothing is dropped iff none is problematic |
| InstanceRules.KeepModes | instance.go:510-520 | the filtering loop keeps exactly KeptModes |
| InstanceRules.KeptModesStep | instance.go:510-520 | filtering one more mode appends it iff it is not problematic |
| InstanceRules.IntrospectionSettings | instance.go:502-525 | sql_quote_show_create=1 always; information_schema_stats_expiry=0 iff the flavor has a data dictionary; sql_mode is overridden, quoted, with the kept modes iff some mode is dropped |
| InstanceRules.IntrospectionValues | instance.go:502-525 | the method builds exactly IntrospectionSettings |
| Instances.Instance.IntrospectionParams | instance.go:502-525 | the encoded settings for the (hydrated) flavor and sql_mode; a hydrated instance is unchanged, and a first call leaves the state CachedConnect gives for the default pool |
| InstanceRules.IntrospectionEmptyMode | instance_test.go:140-141 | an empty sql_mode gives only sql_quote_show_create, plus stats expiry on MySQL 8.0 |
| InstanceRules.IntrospectionStrictModes | instance_test.go:142-143 | the strict modes are kept, so sql_mode is not overridden |
| InstanceRules.IntrospectionAnsiQuotes | instance_test.go:144 | ANSI_QUOTES alone is replaced by an empty quoted sql_mode |
| InstanceRules.KeptModesSix | instance_test.go:145 | in a six-mode list, exactly the problematic third and sixth are dropped |
| InstanceRules.IntrospectionAnsiModes | instance_test.go:145 | ANSI_QUOTES and ANSI are dropped from the six-mode row |
| InstanceRules.IntrospectionNoOptions | instance_test.go:146 | only NO_BACKSLASH_ESCAPES survives the NO_*_OPTIONS modes |
| InstanceRules.SchemaNamed | instance.go:456-464 | a found schema is returned; no rows gives the no-rows error; a query error is passed on |
| InstanceRules.SchemaExists | instance.go:470-488 | found iff the lookup succeeded; "no rows" is not an error; any other error is returned |
| Instances.Instance.HasSchema | instance.go:470-488 | an unreachable server gives its connect error; otherwise SchemaExists of the lookup; the cache and hydrated state are CachedConnect of the old ones for the default pool |
| BulkDrop.SchemaCreationOptions.Params | instance.go:603-608 | empty iff the binlog is not skipped; decodes to sql_log_bin=0 when it is skipped and to no parameters otherwise |
| BulkDrop.BulkDropOptions.Params | instance.go:714-719 | always starts with foreign_key_checks=0 and decodes to foreign_key_checks=0, plus sql_log_bin=0 iff the binlog is skipped |
| BulkDrop.BulkDropOptions.Concurrency | instance.go:722-727 | the configured concurrency, or 1 when it is below 1 |
| BulkDrop.EffectiveConcurrency | instance.go:758-761 | 1 for a buffer pool of 32 GiB or more without MySQL 8.0.23's fast DROP TABLE, the configured concurrency otherwise |
| BulkDrop.TablesToPartitions | instance.go:838-874 | the loop builds exactly PartitionMap |
| BulkDrop.PartitionMapKeys | instance.go:838-874 | a table is in the map iff some row registers it (a views-free row for that table) |
| BulkDrop.NoRowsNoEntry | instance.go:838-874 | a table with no rows has no entry |
| BulkDrop.PartitionMapLists | instance.go:838-874 | a table's entry lists its droppable partitions in row order |
| BulkDrop.FirstError | instance.go:876-886 | no error iff every statement succeeds |
| BulkDrop.FirstErrorWitness | instance.go:876-886 | a reported error is the first failing statement's |
| BulkDrop.Attempted | instance.go:876-886 | the statements run are a prefix, ending at the first failure, or all of them |
| BulkDrop.FailsFirstAt | instance.go:876-886 | if statement i is the first failure, the error is its error and statements 0..i were run |
| BulkDrop.RunInOrder | instance.go:876-886 | the loop returns FirstError and the Attempted prefix |
| BulkDrop.DropPartitions | instance.go:876-886 | runs the partition drops in order and stops at the first failure |
| BulkDrop.PartitionsToDrop | instance.go:766-768 | all but the last partition when dropping partitions first with more than one, otherwise none |
| BulkDrop.DropOneTableSpec | instance.go:764-782 | partitions go first, then DROP TABLE; a deadlock defers the table; any other failure is its error |
| BulkDrop.DropOneTableTask | instance.go:764-782 | the goroutine's body, with the result of DROP TABLE kept in the outer error as evidently intended, computes DropOneTable |
| BulkDrop.RetriesAreDeadlocks | instance.go:774-777 | only tables whose DROP TABLE deadlocked are retried |
| BulkDrop.MainPassClean | instance.go:762-790 | the main pass has no error iff no table failed, and every deferred table is queued for a retry |
| BulkDrop.MainLoop | instance.go:762-784 | the main pass over the tables in sorted name order computes MainPass |
| BulkDrop.RunTasks | instance.go:764-783 | the loop over the tables, in a given order, computes MainPass for that order |
| BulkDrop.DropTables | instance.go:758-794 | the statements and error are those of DropPlan: the main pass, then one retry of each deferred table |
| BulkDrop.DropPlanClean | instance.go:758-794 | a clean plan means each table was dropped, or deadlocked once and then dropped by its retry |
| BulkDrop.DropPlanSucceeds | instance.go:758-794 | conversely, if every table drops or only deadlocks and every deadlocked table's retry succeeds, the plan is clean |
| BulkDrop.TableHasRows | instance.go:569-576 | a failed query reports rows and the error; otherwise "has rows" iff the count is not 0 |
| BulkDrop.EmptinessError | instance.go:578-593 | no error iff the table is readable and empty |
| BulkDrop.ConfirmTablesEmpty | instance.go:578-593 | no error iff every table is readable and empty; an error is some table's |
| Instances.PlanTableDrops | instance.go:737-794 | a listing error is returned; no tables is success; a non-empty table under only-if-empty stops before any drop; otherwise the drop plan runs with the effective concurrency; no error iff the tables were cleared |
| Instances.Instance.DropTablesInSchema | instance.go:731-794 | an unreachable schema gives the connect error and runs nothing; otherwise PlanTableDrops over the partition map; a drop concurrency is chosen iff drops are attempted; no error iff the schema was reachable and its tables were cleared; the pool cache only grows, with the schema's pool under its key; the cache and hydrated state, hence the buffer pool size and flavor behind the concurrency, are CachedConnect of the old ones for the schema's pool |
| Instances.TableDropsReportClean | instance.go:731-794 | the reported table drops end without error iff the schema was reachable and every table was cleared |
| BulkDrop.RoutineDrops | instance.go:812-828 | one DROP statement per routine, in order, with its kind and name |
| BulkDrop.DropRoutines | instance.go:812-828 | runs one DROP per routine; no routines is success; the error is the first failure |
| BulkDrop.FirstErrorAppend | instance.go:812-828 | running one more statement keeps an earlier error, or else takes the new statement's |
| Instances.Instance.DropRoutinesInSchema | instance.go:797-831 | an unreachable schema gives the connect error; otherwise the routines are dropped in order; the cache and hydrated state are CachedConnect of the old ones for the schema's pool |
| InstanceRules.Evict | instance.go:670-678 | exactly the cache entries whose keys lack the prefix are kept, with their pools |
| InstanceRules.EvictDropsSchema | instance.go:670-678 | no key of the dropped schema survives |
| InstanceRules.EvictKeepsOtherSchemas | instance.go:670-678 | another schema's pool survives |
| Instances.Instance.EvictSchema | instance.go:670-678 | the loop leaves the cache equal to Evict of the old cache |
| Instances.Instance.DropSchema | instance.go:649-680 | a failure of the table drops (a connect error, a listing error, a non-empty table under only-if-empty, a failed drop) is returned as DropTablesInSchema reports it, and the cache only grows; after the tables are cleared, the error is the server connection's or that of DROP DATABASE; success means no pool of the schema is left in the cache and every other cached pool is kept; the state is CachedConnect for the schema's pool, then (once the tables are cleared) CachedConnect for the server-level pool followed, on success, by the eviction |
| Instances.Instance.DropEmptiedSchema | instance.go:661-679 | the error is the server connection's or that of DROP DATABASE; on success the schema's pools are evicted from the grown cache, and on failure the cache only grows; the hydrated state is CachedConnect's for the server-level pool, and the cache is that one's, evicted of the schema on success |
| Instances.SchemaEvictedAfterGrowth | instance.go:661-679 | opening a pool and then evicting the schema keeps every other earlier pool and leaves none of the schema's |
| BulkDrop.LostDropTableError | instance.go:770-778 | as written, a DROP TABLE failing with error 1146 is neither retried nor reported |

## Left out

- Percent-escaping of query strings is not modelled. Parameters round-trip only when names hold no '&' or '=' and values hold no '&'. `url.Values` keeps several values per name; only the first is ever read, so a name maps to one value.
- Letter-case folding is ASCII only. Go's `strings.ToLower` folds all of Unicode.
- Go's `Atoi` accepts a leading sign. Version fields here are unsigned digit runs.
- `NewInstance` (DSN parsing) is not modelled. The constructor takes the already-parsed host, port, socket and default parameters.
- BulkDrop.DropOneTableTask, BulkDrop.MainLoop, BulkDrop.RunTasks, BulkDrop.DropTables, Instances.PlanTableDrops, Instances.Instance.DropTablesInSchema and Instances.Instance.DropSchema use the corrected per-table drop, DropOneTable, which reports a DROP TABLE failure other than a deadlock. As written, instance.go:770-779 discards that failure; the as-written drop is BulkDrop.DropOneTableAsWritten (see Findings).
- Params: `url.ParseQuery` gives ';' a meaning of its own (a pair separator in older Go releases, a rejected pair in newer ones). The decoder here splits on '&' only and keeps ';' as an ordinary character, so Params.DecodeEncode also covers names and values holding ';', which Go would split or reject.
- Concurrency is not modelled: goroutines, the throttler, errgroup and the instance mutex. Tables are dropped one after another in sorted name order, which stands in for Go's unordered map iteration. In the source, which failing table's error comes first depends on scheduling.
- The driver is not modelled. Closing a pool, `SetMaxOpenConns` and `SetConnMaxLifetime` are recorded as the fields of a `Pool` value.
- Connectors and queries are oracles. There is one connector keyed by `schema?params`, and one variables-query outcome per call, so a server whose answers change between calls is not modelled.
- `Schemas`, `SchemasByName`, `SchemaNames`, `ShowCreateTable`, `TableSize`, `CreateSchema`, `AlterSchema`, `DefaultCharSetAndCollation` and the DDL text are out of scope: they format SQL and read result sets. `Schema` is reduced to returning the schema's name.
- `CanConnect` and `Connect` are not modelled separately. `Connect` is an alias of `CachedConnectionPool`. `CanConnect` opens an uncached pool through `ConnectionPool` and closes it at once.
- Instances.Instance.String: the port is written with `IntToString` over `int`; the socket path is not validated.
- Flavors.Flavor.Supported: accepts MariaDB 10.1 to 10.5. The tests pin only 10.0 (unsupported) and 10.1 to 10.3 (supported).
- Flavors.Flavor.String: appends ".patch" only when the patch is non-zero, as the tests require ("mysql:5.6.40", "mysql:8.0").
- InstanceRules.Hydrate: when a variable comes back malformed, the source silently keeps zero. Here the server variables arrive already typed.

## Findings

| source | as written | input that shows it | evidently intended | confidence | as-written member | corrected member |
|---|---|---|---|---|---|---|
| instance.go:770-778 | the result of DROP TABLE is assigned with `:=` to a new `err` inside the `if` block, shadowing the `err` passed to `th.Done`, so an error other than a deadlock is dropped | no partitions, and DROP TABLE `t` fails with server error 1146 | that error is reported by DropTablesInSchema | not executed | BulkDrop.LostDropTableError | BulkDrop.DropOneTableSpec |
