# DB2 for iSeries schema cleanup, modelled in Dafny

This project models the DB2 for iSeries dialect of Flyway's schema support:
the schema handle (existence, emptiness, creation, the cleanup that drops
every object its catalog queries return, and the schema drop that is only a
cleanup), the
table handle (drop, existence check, exclusive lock) and the dialect support
(identifier quoting, boolean literals, capability flags, the SET SCHEMA
statement).

The database is abstract. For each schema it holds, per object kind, the
names the catalog queries return, in catalog order, and the
(PROCEDURE_NAME, PARAM_LIST) rows of the procedure-signature query. It also
keeps the log of every statement the connection was asked to execute.
Executing a DROP removes the object it names from the schema being cleaned,
and nothing else (see "## Left out" for what this assumes). Views whose
names are on the system-view exclusion list of the view-drop query are held
apart: the view count of the emptiness check sees them, the drop query does
not. A statement in the database's
`rejects` set is still issued, but it changes nothing and fails. A query for
a kind in `failingQueries` fails. Both stand for an SQLException.

Files:

- `wrappers.dfy`: Option, Result and Outcome.
- `catalog.dfy`: the object kinds and the statements. `Database` is the
  connection together with the database behind it. `Issue` issues one
  statement; `Run` issues a list and stops at the first rejection.
- `dbsupport.dfy`: quoting, the constants, and SET SCHEMA.
- `dropstatements.dfy`: the drop-statement builders.
- `tables.dfy`: the `Db2iTable` class.
- `schemas.dfy`: the `Db2iSchema` class, plus `CleanSpec`, the cleanup as a
  function of the database state. `Db2iSchema.Clean` is proved to do exactly
  what `CleanSpec` says. The cleanup runs phase by phase in the order views,
  aliases, base tables, sequences, procedures, triggers, functions, types.
  Each phase enumerates its kind in the catalog as it is when the phase
  starts.
- `cleanproperties.dfy`: what the cleanup promises, proved about `CleanSpec`.

Assumptions about code this model does not contain:

- The one-argument `quote(name)` of the DbSupport base class, called by
  doCreate and by the table's existence check, is taken to be this dialect's
  `doQuote(name)` (`Quote`).
- The two-argument `quote(schema, name)` of the DbSupport base class is
  taken to be each part quoted, joined by a dot (`QuoteQualified`).
- `Table.toString()` is taken to be that qualified name, which is what the
  lock statement prints.
- SYSIBM.TABLES counts base tables and aliases. The alias drops are
  enumerated from it by TABLE_TYPE.
- SYSIBM.SQLPROCEDURES, which the emptiness check counts, lists exactly one
  row per row of the procedure-signature query, whose text is in a bundled
  resource (`select_procedures.sql`) that is not part of this model. Both are
  the one list `procedures`.

## Model

| member | source | states |
|---|---|---|
| DbSupport.Quote | flyway-core/src/main/java/org/flywaydb/core/internal/dbsupport/db2i/DB2iSeriesDbSupport.java:91-93 | the quoted identifier is two characters longer, starts and ends with a double quote, and has the identifier, unchanged, in between |
| DbSupport.QuoteInjective | flyway-core/src/main/java/org/flywaydb/core/internal/dbsupport/db2i/DB2iSeriesDbSupport.java:91-93 | two identifiers quote to the same text exactly when they are equal |
| DbSupport.QuoteNotIdempotent | flyway-core/src/main/java/org/flywaydb/core/internal/dbsupport/db2i/DB2iSeriesDbSupport.java:91-93 | quoting an already quoted identifier gives a different text, two characters longer, with the original identifier inside a doubled pair of quotes |
| DbSupport.QuoteDoesNotEscape | flyway-core/src/main/java/org/flywaydb/core/internal/dbsupport/db2i/DB2iSeriesDbSupport.java:91-93 | a double quote inside the identifier appears as a bare double quote in the result: nothing is escaped |
| DbSupport.QuoteQualified | flyway-core/src/main/java/org/flywaydb/core/internal/dbsupport/db2i/DB2iSeriesTable.java:43 | the schema-qualified name (taken to be each part quoted, joined by a dot) is the quoted schema, a dot, then the quoted name |
| DbSupport.QuoteQualifiedInjective | flyway-core/src/main/java/org/flywaydb/core/internal/dbsupport/db2i/DB2iSeriesTable.java:43 | without double quotes in the schema names, equal qualified names have equal schemas and equal table names |
| DbSupport.QuoteQualifiedAmbiguous | flyway-core/src/main/java/org/flywaydb/core/internal/dbsupport/db2i/DB2iSeriesTable.java:43 | with an unescaped quote in a name, two different (schema, table) pairs give the same qualified text |
| DbSupport.GetDbName | flyway-core/src/main/java/org/flywaydb/core/internal/dbsupport/db2i/DB2iSeriesDbSupport.java:56-58 | the dialect name is "db2i" |
| DbSupport.BooleanLiterals | flyway-core/src/main/java/org/flywaydb/core/internal/dbsupport/db2i/DB2iSeriesDbSupport.java:82-88 | true is written "1", false "0", and the two differ |
| DbSupport.DdlIsTransactional | flyway-core/src/main/java/org/flywaydb/core/internal/dbsupport/db2i/DB2iSeriesDbSupport.java:78-80 | DDL statements are transactional |
| DbSupport.CatalogIsNotSchema | flyway-core/src/main/java/org/flywaydb/core/internal/dbsupport/db2i/DB2iSeriesDbSupport.java:100-103 | catalog and schema are not the same level |
| DbSupport.ChangeCurrentSchemaStatement | flyway-core/src/main/java/org/flywaydb/core/internal/dbsupport/db2i/DB2iSeriesDbSupport.java:66-68 | the statement is "SET SCHEMA " followed by the schema name, unquoted |
| DbSupport.ChangeCurrentSchemaInjective | flyway-core/src/main/java/org/flywaydb/core/internal/dbsupport/db2i/DB2iSeriesDbSupport.java:66-68 | different schema names give different SET SCHEMA statements |
| DbSupport.ChangeCurrentSchemaTo | flyway-core/src/main/java/org/flywaydb/core/internal/dbsupport/db2i/DB2iSeriesDbSupport.java:66-68 | exactly that one statement is issued, the catalog is unchanged, and it succeeds unless the database rejects the statement (no unsupported-operation error) |
| DropStatements.BuildDropStatements | flyway-core/src/main/java/org/flywaydb/core/internal/dbsupport/db2i/DB2iSeriesSchema.java:194-201 | one statement per name the query returned, in the same order; statement i reads prefix, a space, then names[i], and drops names[i] |
| DropStatements.BuildProcedureDropStatements | flyway-core/src/main/java/org/flywaydb/core/internal/dbsupport/db2i/DB2iSeriesSchema.java:128-133 | one statement per result row, in row order; statement i reads DROP PROCEDURE name ( params ) and drops exactly that signature row |
| DropStatements.OverloadsGetDistinctStatements | flyway-core/src/main/java/org/flywaydb/core/internal/dbsupport/db2i/DB2iSeriesSchema.java:131 | for two rows of the same procedure, the drop texts are equal exactly when the parameter lists are equal, so two overloads give two distinct statements |
| Tables.DropTableText | flyway-core/src/main/java/org/flywaydb/core/internal/dbsupport/db2i/DB2iSeriesTable.java:42-44 | the drop text is "DROP TABLE " followed by the quoted schema, a dot and the quoted table name |
| Tables.DropTableDistinct | flyway-core/src/main/java/org/flywaydb/core/internal/dbsupport/db2i/DB2iSeriesTable.java:42-44 | for schema names without double quotes, different tables get different drop texts |
| Tables.DropTableTouchesOnlyThatTable | flyway-core/src/main/java/org/flywaydb/core/internal/dbsupport/db2i/DB2iSeriesTable.java:43 | executing the drop removes that table name from its schema and leaves the other kinds, the procedures, the other schemas and the set of schemas unchanged |
| Tables.Db2iTable.constructor | flyway-core/src/main/java/org/flywaydb/core/internal/dbsupport/db2i/DB2iSeriesTable.java:37-39 | the handle keeps the connection, schema name and table name exactly as given |
| Tables.Db2iTable.Drop | flyway-core/src/main/java/org/flywaydb/core/internal/dbsupport/db2i/DB2iSeriesTable.java:42-44 | issues exactly the DROP TABLE statement built from the name given at construction, with the effect and outcome of issuing it |
| Tables.Db2iTable.Exists | flyway-core/src/main/java/org/flywaydb/core/internal/dbsupport/db2i/DB2iSeriesTable.java:47-49 | the lookup by quoted name finds the table exactly when a base table of that exact name (same case) exists in the schema |
| Tables.Db2iTable.Lock | flyway-core/src/main/java/org/flywaydb/core/internal/dbsupport/db2i/DB2iSeriesTable.java:52-54 | issues exactly one statement, "lock table" then the qualified name then "in exclusive mode"; the catalog is unchanged |
| Schemas.Db2iSchema.constructor | flyway-core/src/main/java/org/flywaydb/core/internal/dbsupport/db2i/DB2iSeriesSchema.java:38-40 | the handle keeps the connection and the schema name as given; the procedure query resource, which the source looks up on the class path, is a constructor parameter here |
| Schemas.GetSchema | flyway-core/src/main/java/org/flywaydb/core/internal/dbsupport/db2i/DB2iSeriesDbSupport.java:96-98 | returns a new schema handle whose name is the given name, unchanged |
| Schemas.Db2iSchema.Exists | flyway-core/src/main/java/org/flywaydb/core/internal/dbsupport/db2i/DB2iSeriesSchema.java:43-45 | true exactly when the schema is present in the catalog |
| Schemas.Db2iSchema.Empty | flyway-core/src/main/java/org/flywaydb/core/internal/dbsupport/db2i/DB2iSeriesSchema.java:48-57 | true exactly when tables plus aliases, views (the system views the view-drop query excludes included), procedures and functions count zero; sequences, triggers and types are not counted |
| Schemas.Db2iSchema.Create | flyway-core/src/main/java/org/flywaydb/core/internal/dbsupport/db2i/DB2iSeriesSchema.java:60-62 | issues CREATE SCHEMA with the quoted name, with the effect and outcome of issuing it; the new schema receives the catalog views the database places in every schema it creates |
| Schemas.Db2iSchema.Drop | flyway-core/src/main/java/org/flywaydb/core/internal/dbsupport/db2i/DB2iSeriesSchema.java:65-71 | the new state and outcome are those of the cleanup and nothing else |
| Schemas.Db2iSchema.GenerateDropStatementsForViews | flyway-core/src/main/java/org/flywaydb/core/internal/dbsupport/db2i/DB2iSeriesSchema.java:164-171 | fails when the view query fails; otherwise one DROP VIEW statement per view name, in query order |
| Schemas.Db2iSchema.GenerateDropStatements | flyway-core/src/main/java/org/flywaydb/core/internal/dbsupport/db2i/DB2iSeriesSchema.java:180-184 | the TABLE_TYPE string selects the kind ("ALIAS" aliases, "BASE TABLE" base tables, anything else no rows); fails when that query fails, otherwise one "DROP " + object type statement per name of that kind; with "ALIAS" it is exactly the alias phase |
| Schemas.Db2iSchema.GenerateDropStatementsForSequences | flyway-core/src/main/java/org/flywaydb/core/internal/dbsupport/db2i/DB2iSeriesSchema.java:153-156 | fails when the sequence query fails; otherwise one DROP SEQUENCE statement per sequence name |
| Schemas.Db2iSchema.GenerateDropStatementsForTriggers | flyway-core/src/main/java/org/flywaydb/core/internal/dbsupport/db2i/DB2iSeriesSchema.java:142-145 | fails when the trigger query fails; otherwise one DROP TRIGGER statement per trigger name |
| Schemas.Db2iSchema.GenerateDropStatementsForProcedures | flyway-core/src/main/java/org/flywaydb/core/internal/dbsupport/db2i/DB2iSeriesSchema.java:120-134 | without the SQL resource it fails with "Could not load SQL file" before any query; otherwise it fails when the query fails, else one drop per signature row |
| Schemas.Db2iSchema.FindTables | flyway-core/src/main/java/org/flywaydb/core/internal/dbsupport/db2i/DB2iSeriesSchema.java:203-210 | a new array with one table handle per name, handle i naming names[i] in this schema |
| Schemas.Db2iSchema.AllTables | flyway-core/src/main/java/org/flywaydb/core/internal/dbsupport/db2i/DB2iSeriesSchema.java:213-215 | fails when the base-table query fails; otherwise the handles' drop statements are exactly the table phase's drops |
| Schemas.Db2iSchema.AllFunctions | flyway-core/src/main/java/org/flywaydb/core/internal/dbsupport/db2i/DB2iSeriesSchema.java:218-227 | fails when the function query fails; otherwise one function drop per specific name, in query order |
| Schemas.Db2iSchema.AllTypes | flyway-core/src/main/java/org/flywaydb/core/internal/dbsupport/db2i/DB2iSeriesSchema.java:108-110 | fails when the type query fails; otherwise one type drop per type name |
| Schemas.Db2iSchema.ExecuteAll | flyway-core/src/main/java/org/flywaydb/core/internal/dbsupport/db2i/DB2iSeriesSchema.java:76-78 | issues the statements in order until the first rejected one, which ends the loop with its error |
| Schemas.Db2iSchema.DropTables | flyway-core/src/main/java/org/flywaydb/core/internal/dbsupport/db2i/DB2iSeriesSchema.java:85-87 | drops the tables in array order until the first rejected drop |
| Schemas.Db2iSchema.RunPhase | flyway-core/src/main/java/org/flywaydb/core/internal/dbsupport/db2i/DB2iSeriesSchema.java:74-111 | one block of the cleanup for one kind: if that kind's query fails (or, for procedures, the SQL resource is missing) it fails without issuing anything; otherwise it issues the kind's drops, generated from the catalog as it is when the block starts, in query order up to the first rejected one |
| Schemas.Db2iSchema.Clean | flyway-core/src/main/java/org/flywaydb/core/internal/dbsupport/db2i/DB2iSeriesSchema.java:74-111 | the new state and outcome are those of running the eight phases in the fixed order, stopping at the first error |
| CleanProperties.CleanStopsAtFirstError | flyway-core/src/main/java/org/flywaydb/core/internal/dbsupport/db2i/DB2iSeriesSchema.java:74-111 | the log only grows; a rejected drop is the last statement issued; every earlier statement was accepted and stays applied (the catalog is exactly their effect); a failed query leaves all issued drops applied |
| CleanProperties.CleanRunsPhasesInOrder | flyway-core/src/main/java/org/flywaydb/core/internal/dbsupport/db2i/DB2iSeriesSchema.java:74-111 | every issued statement drops an object of this schema, and every drop of a kind precedes every drop of a later kind in the order views, aliases, tables, sequences, procedures, triggers, functions, types |
| CleanProperties.CleanStopsAtBlockedPhase | flyway-core/src/main/java/org/flywaydb/core/internal/dbsupport/db2i/DB2iSeriesSchema.java:120-128 | when a phase cannot start (its query fails, or the procedure SQL resource is missing) the cleanup fails and no object of that kind or a later one is dropped |
| CleanProperties.CleanOnEmptySchemaIssuesNothing | flyway-core/src/main/java/org/flywaydb/core/internal/dbsupport/db2i/DB2iSeriesSchema.java:76-110 | on a schema whose queries all return empty lists no statement is issued and nothing changes; it succeeds exactly when the resource loads and no query fails |
| CleanProperties.CleanSucceedsOnlyWhenSchemaIsEmptied | flyway-core/src/main/java/org/flywaydb/core/internal/dbsupport/db2i/DB2iSeriesSchema.java:74-111 | after a successful cleanup every kind's query returns an empty list |
| CleanProperties.CleanSucceedsWhenNothingFails | flyway-core/src/main/java/org/flywaydb/core/internal/dbsupport/db2i/DB2iSeriesSchema.java:74-111 | when the database accepts every drop, every query answers and the resource loads, the cleanup succeeds |
| CleanProperties.CleanIssuesPlannedDrops | flyway-core/src/main/java/org/flywaydb/core/internal/dbsupport/db2i/DB2iSeriesSchema.java:74-111 | a successful cleanup issues exactly the drops generated from the objects present when it started, phase after phase |
| CleanProperties.CleanIssuesOneStatementPerObject | flyway-core/src/main/java/org/flywaydb/core/internal/dbsupport/db2i/DB2iSeriesSchema.java:74-111 | a successful cleanup issues one statement per object of the schema, over all eight kinds |
| CleanProperties.CleanThenEmpty | flyway-core/src/main/java/org/flywaydb/core/internal/dbsupport/db2i/DB2iSeriesSchema.java:48-57 | after a successful cleanup the emptiness check answers true exactly when the schema held no system view of the view-drop exclusion list: those views are still counted, so such a schema is reported not empty |
| CleanProperties.CleanIsIdempotent | flyway-core/src/main/java/org/flywaydb/core/internal/dbsupport/db2i/DB2iSeriesSchema.java:74-111 | cleaning again after a successful cleanup issues no statement and succeeds |
| CleanProperties.DropKeepsTheSchema | flyway-core/src/main/java/org/flywaydb/core/internal/dbsupport/db2i/DB2iSeriesSchema.java:65-71 | after the schema drop the schema still exists (no DROP SCHEMA is issued), the set of schemas is unchanged and no other schema changes |
| CleanProperties.CleanScenarioTableAndSequence | flyway-core/src/main/java/org/flywaydb/core/internal/dbsupport/db2i/DB2iSeriesSchema.java:74-111 | for any names, a schema holding just one table and one sequence, with nothing failing, is cleaned by exactly DROP TABLE "schema"."table" then DROP SEQUENCE name, after which the emptiness check answers true |
| CleanProperties.CleanOnlyShrinks | flyway-core/src/main/java/org/flywaydb/core/internal/dbsupport/db2i/DB2iSeriesSchema.java:74-111 | whatever the outcome, every object the schema reports after the cleanup it reported before, and its excluded views are unchanged: a cleanup re-run after a failure enumerates only what is left |
| CleanProperties.CleanKeepsExcludedViews | flyway-core/src/main/java/org/flywaydb/core/internal/dbsupport/db2i/DB2iSeriesSchema.java:164-171 | the views the view-drop query excludes by name are never dropped: after the cleanup, whatever its outcome, the schema holds exactly the excluded views it held before |
| CleanProperties.EmptyIgnoresUncountedKinds | flyway-core/src/main/java/org/flywaydb/core/internal/dbsupport/db2i/DB2iSeriesSchema.java:48-57 | two schemas that agree on tables, aliases, views (excluded system views included), procedures and functions get the same emptiness answer |
| CleanProperties.EmptyDespiteSequencesTriggersTypes | flyway-core/src/main/java/org/flywaydb/core/internal/dbsupport/db2i/DB2iSeriesSchema.java:51-55 | a schema holding only sequences, triggers and types is reported empty |
| CleanProperties.CreateThenExists | flyway-core/src/main/java/org/flywaydb/core/internal/dbsupport/db2i/DB2iSeriesSchema.java:60-62 | an accepted CREATE SCHEMA makes the schema exist; if it is new, no drop query returns any object of it and its excluded views are exactly the catalog views the database adds; no other schema changes |
| CleanProperties.CreatedSchemaEmptyOnlyWithoutCatalogViews | flyway-core/src/main/java/org/flywaydb/core/internal/dbsupport/db2i/DB2iSeriesSchema.java:48-62 | for a schema made by doCreate, the emptiness check answers true, before or after a successful cleanup, exactly when the database adds no catalog views to new schemas: those views are counted but never dropped |

## Left out

- The SQL text of the catalog queries is not modelled. This covers the SYSIBM and QSYS2 queries, the list of 19 system views excluded from the view drops, and the contents of the procedure-signature resource. Each query is the list of names the abstract catalog holds for its kind. Whether the resource loads is a parameter.
- Schema names are pasted into quoted SQL literals without escaping. This is not modelled: there is no SQL parsing here.
- JDBC, the Connection and the ClassLoader are not modelled. That covers the database major version and its failure, the console message in the constructor, `getCurrentUserFunction` and `doGetCurrentSchemaName`. They are driver plumbing, with no logic of their own.
- The base classes Schema, Table and DbSupport and the function and type handles are not part of this model.
  - `QuoteQualified` and the lock text rest on the assumptions stated above.
  - Function and type drops are opaque "remove this object" statements, because their SQL text lives in those classes.
  - `allTypes` is modelled as the type query, since the base class is not shown.
- CleanProperties.CleanSucceedsOnlyWhenSchemaIsEmptied, CleanProperties.CleanIsIdempotent, CleanProperties.CleanIssuesPlannedDrops, CleanProperties.CleanIssuesOneStatementPerObject, CleanProperties.CleanThenEmpty, CleanProperties.CleanScenarioTableAndSequence, CleanProperties.CreatedSchemaEmptyOnlyWithoutCatalogViews: these rest on three assumptions about how DB2 executes the drops, which the model does not check. (1) The view, alias, sequence, trigger and procedure drops carry an unqualified, unquoted name; the model takes it to resolve to the schema being cleaned, not to the session's default schema. (2) Each name is taken to match the object under its exact stored case, with no upper-case folding. (3) No drop cascades: dropping a table is taken to remove only that table, although DB2 also removes the triggers defined on it, which would then not get a DROP TRIGGER of their own.
- The 19 names of the system-view exclusion list are not modelled as text: each schema carries the list of its views that the exclusion hides (`excludedViews`), and no statement of the cleanup removes them.
- Schemas.Db2iSchema.Create: which catalog views the database places in a new schema is a parameter of the database (`catalogViews`), taken to be views the view-drop query excludes. The model does not fix them to the 19 names. With any such view, `CreatedSchemaEmptyOnlyWithoutCatalogViews` shows that doEmpty never reports a schema made by doCreate as empty, not even after a successful cleanup.
- Schemas.Db2iSchema.GenerateDropStatements: only the TABLE_TYPE values "ALIAS" and "BASE TABLE" are modelled as selecting rows; the other types SYSIBM.TABLES may hold are not part of this model. The effect of its statements is meaningful for "ALIAS" only, the one value doClean passes. With "BASE TABLE" the text "DROP BASE TABLE t" is not a valid DROP statement, yet it keeps the effect of dropping t. A database that refuses it is one that lists it in `rejects`.
- Schemas.Db2iSchema.RunPhase: the source writes doClean as eight consecutive blocks. The model runs one loop over the fixed kind order, and each step dispatches to the block for its kind. The statements and their order are the same.
- Tables.Db2iTable.Lock: only the statement text is modelled. The locking itself serves concurrency control, which is not modelled.
- Tables.Db2iTable.Exists: the base-class lookup is modelled as a search of the schema's base tables by quoted name. Aliases and views are not searched. The lookup query is modelled as always answering, so the SQLException the source may throw is not modelled.
- Schemas.Db2iSchema.Exists: the SYSIBM.SCHEMATA count query is modelled as always answering, so the SQLException the source may throw is not modelled.
- CleanProperties.CleanThenEmpty: the if-and-only-if rests on the assumption above that SYSIBM.SQLPROCEDURES lists exactly the rows of the procedure-signature query. If that query returned no row for some procedure, for instance one without parameters, that procedure would survive a successful cleanup and the emptiness check would answer false.
- Schemas.Db2iSchema.Empty: the count queries are modelled as always answering. The sum is unbounded, so 32-bit overflow of `objectCount` is not modelled, since it needs more than two billion objects.
- doEmpty does not count all eight kinds: the counts of sequences, indexes and triggers are commented out in the code, so only tables (with aliases), views, procedures and functions are counted. The model follows the code; see `EmptyDespiteSequencesTriggersTypes`.
- Schemas.Db2iSchema.Create: CREATE SCHEMA on an existing schema fails only if the database rejects that statement. Otherwise it changes nothing.
- DbSupport.ChangeCurrentSchemaTo: the effect of SET SCHEMA on the session's current schema is not modelled. It is not part of the catalog.
- A procedure row with a missing column would be formatted as the text "null". This is not modelled: rows always carry both strings.
- `Db2SqlScript` and the integration tests against a live server are not modelled. No code shown raises the unsupported-operation error that one test expects from setting the current schema, so none is modelled.
- The statement builder of `createSqlStatementBuilder` and `getDb2MajorVersion` are not modelled. They fall outside the cleanup logic.
