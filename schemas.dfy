/**
  DB2 for iSeries schema: existence and emptiness checks, creation, and the
  cleanup that drops every object kind in a fixed order.
*/
module Schemas {
  import opened Wrappers
  import opened Catalog
  import opened DbSupport
  import opened DropStatements
  import opened Tables

  /** The kind order of doClean. */
  const DropOrder: seq<Kind> := [View, Alias, Table, Sequence, Procedure, Trigger, Function, Type]

  /** Position of a kind in DropOrder. */
  function Rank(k: Kind): nat
  {
    match k
    case View => 0
    case Alias => 1
    case Table => 2
    case Sequence => 3
    case Procedure => 4
    case Trigger => 5
    case Function => 6
    case Type => 7
  }

  /** What the cleanup cannot see through the catalog: rejected statements, failing queries, the SQL resource. */
  datatype Env = Env(rejects: set<Stmt>, failing: set<Kind>, procedureSqlLoaded: bool)

  /**
    The kind of object a TABLE_TYPE value of SYSIBM.TABLES selects; no row of
    the modelled catalog has any other type.
  */
  function TableTypeKind(objectType: string): Option<Kind>
  {
    if objectType == "ALIAS" then Some(Alias)
    else if objectType == "BASE TABLE" then Some(Table)
    else None
  }

  function TableDrops(schema: string, names: seq<string>): seq<Stmt>
  {
    seq(|names|, i requires 0 <= i < |names| => DropTableStmt(schema, names[i]))
  }

  /** The drops one phase of doClean generates from the current catalog, or why it could not. */
  function PhaseStatements(schema: string, o: Objects, k: Kind, env: Env): Result<seq<Stmt>, Error>
  {
    if k == Procedure && !env.procedureSqlLoaded then Err(CouldNotLoadSqlFile)
    else if k in env.failing then Err(QueryFailed(k))
    else
      match k
      case View => Ok(NamedDrops(schema, View, "DROP VIEW", Names(o, View)))
      case Alias => Ok(NamedDrops(schema, Alias, "DROP ALIAS", Names(o, Alias)))
      case Table => Ok(TableDrops(schema, Names(o, Table)))
      case Sequence => Ok(NamedDrops(schema, Sequence, "DROP SEQUENCE", Names(o, Sequence)))
      case Procedure => Ok(ProcedureDrops(schema, o.procedures))
      case Trigger => Ok(NamedDrops(schema, Trigger, "DROP TRIGGER", Names(o, Trigger)))
      case Function => Ok(OpaqueDrops(schema, Function, Names(o, Function)))
      case Type => Ok(OpaqueDrops(schema, Type, Names(o, Type)))
  }

  /** One phase of doClean: enumerate kind `k` now, then issue its drops until one fails. */
  function Phase(st: DbState, schema: string, k: Kind, env: Env): (DbState, Outcome<Error>)
  {
    match PhaseStatements(schema, ObjectsOf(st.catalogs, schema), k, env)
    case Err(e) => (st, Fail(e))
    case Ok(ss) => Run(st, ss, env.rejects)
  }

  /**
    The phases `kinds`, in order: each enumerates the objects present when it
    starts and drops them; the first error ends the cleanup.
  */
  function CleanFrom(st: DbState, schema: string, kinds: seq<Kind>, env: Env): (DbState, Outcome<Error>)
    decreases |kinds|
  {
    if kinds == [] then (st, Pass)
    else
      var (st1, o) := Phase(st, schema, kinds[0], env);
      if o.Fail? then (st1, o) else CleanFrom(st1, schema, kinds[1..], env)
  }

  /** Unfolds CleanFrom by the phase of its first kind. */
  lemma CleanFromStep(st: DbState, schema: string, kinds: seq<Kind>, env: Env, st1: DbState, o: Outcome<Error>)
    requires kinds != [] && (st1, o) == Phase(st, schema, kinds[0], env)
    ensures o.Fail? ==> CleanFrom(st, schema, kinds, env) == (st1, o)
    ensures o.Pass? ==> CleanFrom(st, schema, kinds, env) == CleanFrom(st1, schema, kinds[1..], env)
  {
  }

  /** doClean as a function of the database state. */
  function CleanSpec(st: DbState, schema: string, env: Env): (DbState, Outcome<Error>)
  {
    CleanFrom(st, schema, DropOrder, env)
  }

  /** The emptiness test of doEmpty: the four counted catalog views sum to zero. */
  function CountsSayEmpty(o: Objects): bool
  {
    RowCount(o, SysTables) + RowCount(o, SysViews) + RowCount(o, SysProcedures) + RowCount(o, SysFunctions) == 0
  }

  /**
    The statement doCreate issues; the base-class one-argument quote is taken
    to be Quote. The database adds `catalogViews` to the schema it creates.
  */
  function CreateStmt(schema: string, catalogViews: seq<string>): Stmt
  {
    Sql(CreateSchema(schema, catalogViews), "CREATE SCHEMA " + Quote(schema))
  }

  function TableStmts(ts: seq<Db2iTable>): seq<Stmt>
  {
    seq(|ts|, i requires 0 <= i < |ts| => DropTableStmt(ts[i].schemaName, ts[i].name))
  }

  class Db2iSchema {
    const db: Database
    const name: string
    /** Text of the bundled procedure-signature query; None when the resource cannot be loaded. */
    const procedureSql: Option<string>

    constructor (db: Database, name: string, procedureSql: Option<string>)
      ensures this.db == db && this.name == name && this.procedureSql == procedureSql
    {
      this.db := db;
      this.name := name;
      this.procedureSql := procedureSql;
    }

    function Environment(): Env
      reads db
    {
      Env(db.rejects, db.failingQueries, procedureSql.Some?)
    }

    /** doExists: the schema has a row in SYSIBM.SCHEMATA. */
    method Exists() returns (b: bool)
      ensures b <==> name in db.catalogs
    {
      var n := db.CountSchemata(name);
      b := n > 0;
    }

    /** doEmpty: tables, views, procedures and functions are counted; sequences, triggers and types are not. */
    method Empty() returns (empty: bool)
      ensures empty == CountsSayEmpty(ObjectsOf(db.catalogs, name))
      ensures empty <==> var o := ObjectsOf(db.catalogs, name);
        Names(o, Table) == [] && Names(o, Alias) == [] && Names(o, View) == []
        && o.excludedViews == [] && o.procedures == [] && Names(o, Function) == []
    {
      var objectCount := db.CountRows(name, SysTables);
      var n := db.CountRows(name, SysViews);
      objectCount := objectCount + n;
      n := db.CountRows(name, SysProcedures);
      objectCount := objectCount + n;
      n := db.CountRows(name, SysFunctions);
      objectCount := objectCount + n;
      empty := objectCount == 0;
    }

    /** doCreate: CREATE SCHEMA with the quoted name. */
    method Create() returns (o: Outcome<Error>)
      modifies db
      ensures (db.State(), o) == Issue(old(db.State()), CreateStmt(name, db.catalogViews), db.rejects)
    {
      o := db.Execute(Sql(CreateSchema(name, db.catalogViews), "CREATE SCHEMA " + Quote(name)));
    }

    /** doDrop: only cleans; no DROP SCHEMA is issued. */
    method Drop() returns (o: Outcome<Error>)
      modifies db
      ensures (db.State(), o) == CleanSpec(old(db.State()), name, Environment())
    {
      o := Clean();
    }

    method GenerateDropStatementsForViews() returns (r: Result<seq<Stmt>, Error>)
      ensures r == PhaseStatements(name, ObjectsOf(db.catalogs, name), View, Environment())
    {
      var q := db.QueryNames(name, View);
      if q.Err? {
        return Err(q.error);
      }
      var ss := BuildDropStatements(name, View, "DROP VIEW", q.value);
      r := Ok(ss);
    }

    /**
      generateDropStatements(objectType): the objects of SYSIBM.TABLES whose
      TABLE_TYPE is `objectType`, each dropped with "DROP " + objectType.
      doClean calls it with "ALIAS" only. The statement's effect is meaningful
      for "ALIAS" only: with "BASE TABLE" the text reads "DROP BASE TABLE t",
      which is not a valid DROP statement; the model still gives it the effect
      of dropping t, and a database that refuses it is one that lists it in
      `rejects`.
    */
    method GenerateDropStatements(objectType: string) returns (r: Result<seq<Stmt>, Error>)
      ensures TableTypeKind(objectType).None? ==> r == Ok([])
      ensures TableTypeKind(objectType).Some? ==> var k := TableTypeKind(objectType).value;
        r == if k in db.failingQueries then Err(QueryFailed(k))
          else Ok(NamedDrops(name, k, "DROP " + objectType, Names(ObjectsOf(db.catalogs, name), k)))
      ensures objectType == "ALIAS" ==> r == PhaseStatements(name, ObjectsOf(db.catalogs, name), Alias, Environment())
    {
      var kind := TableTypeKind(objectType);
      if kind.None? {
        return Ok([]);
      }
      var q := db.QueryNames(name, kind.value);
      if q.Err? {
        return Err(q.error);
      }
      var ss := BuildDropStatements(name, kind.value, "DROP " + objectType, q.value);
      r := Ok(ss);
      assert "DROP " + "ALIAS" == "DROP ALIAS";
    }

    method GenerateDropStatementsForSequences() returns (r: Result<seq<Stmt>, Error>)
      ensures r == PhaseStatements(name, ObjectsOf(db.catalogs, name), Sequence, Environment())
    {
      var q := db.QueryNames(name, Sequence);
      if q.Err? {
        return Err(q.error);
      }
      var ss := BuildDropStatements(name, Sequence, "DROP SEQUENCE", q.value);
      r := Ok(ss);
    }

    method GenerateDropStatementsForTriggers() returns (r: Result<seq<Stmt>, Error>)
      ensures r == PhaseStatements(name, ObjectsOf(db.catalogs, name), Trigger, Environment())
    {
      var q := db.QueryNames(name, Trigger);
      if q.Err? {
        return Err(q.error);
      }
      var ss := BuildDropStatements(name, Trigger, "DROP TRIGGER", q.value);
      r := Ok(ss);
    }

    /** Fails with CouldNotLoadSqlFile, before any query, when the SQL resource is missing. */
    method GenerateDropStatementsForProcedures() returns (r: Result<seq<Stmt>, Error>)
      ensures procedureSql.None? ==> r == Err(CouldNotLoadSqlFile)
      ensures r == PhaseStatements(name, ObjectsOf(db.catalogs, name), Procedure, Environment())
    {
      if procedureSql.None? {
        return Err(CouldNotLoadSqlFile);
      }
      var q := db.QueryProcedures(name);
      if q.Err? {
        return Err(q.error);
      }
      var ss := BuildProcedureDropStatements(name, q.value);
      r := Ok(ss);
    }

    /** findTables: one handle per name, filled by index. */
    method FindTables(names: seq<string>) returns (tables: array<Db2iTable>)
      ensures fresh(tables) && tables.Length == |names|
      ensures forall i :: 0 <= i < |names| ==>
        tables[i].db == db && tables[i].schemaName == name && tables[i].name == names[i]
    {
      var dummy := new Db2iTable(db, name, "");
      tables := new Db2iTable[|names|](_ => dummy);
      var i := 0;
      while i < |names|
        invariant 0 <= i <= |names|
        invariant forall j :: 0 <= j < i ==>
          tables[j].db == db && tables[j].schemaName == name && tables[j].name == names[j]
      {
        tables[i] := new Db2iTable(db, name, names[i]);
        i := i + 1;
      }
    }

    /** doAllTables: the base tables of the schema. */
    method AllTables() returns (r: Result<array<Db2iTable>, Error>)
      ensures r.Err? ==> PhaseStatements(name, ObjectsOf(db.catalogs, name), Table, Environment()) == Err(r.error)
      ensures r.Ok? ==> forall i :: 0 <= i < r.value.Length ==> r.value[i].db == db
      ensures r.Ok? ==> PhaseStatements(name, ObjectsOf(db.catalogs, name), Table, Environment()) == Ok(TableStmts(r.value[..]))
    {
      var q := db.QueryNames(name, Table);
      if q.Err? {
        return Err(q.error);
      }
      var tables := FindTables(q.value);
      assert TableStmts(tables[..]) == TableDrops(name, q.value);
      r := Ok(tables);
    }

    /** doAllFunctions: one function handle per specific name, each represented by the drop it performs. */
    method AllFunctions() returns (r: Result<seq<Stmt>, Error>)
      ensures r == PhaseStatements(name, ObjectsOf(db.catalogs, name), Function, Environment())
    {
      var q := db.QueryNames(name, Function);
      if q.Err? {
        return Err(q.error);
      }
      var functions: seq<Stmt> := [];
      var i := 0;
      while i < |q.value|
        invariant 0 <= i <= |q.value|
        invariant functions == OpaqueDrops(name, Function, q.value[..i])
      {
        functions := functions + [Opaque(DropNamed(name, Function, q.value[i]))];
        i := i + 1;
      }
      assert q.value[..i] == q.value;
      r := Ok(functions);
    }

    /** allTypes of the Schema base class, each type represented by the drop it performs. */
    method AllTypes() returns (r: Result<seq<Stmt>, Error>)
      ensures r == PhaseStatements(name, ObjectsOf(db.catalogs, name), Type, Environment())
    {
      var q := db.QueryNames(name, Type);
      if q.Err? {
        return Err(q.error);
      }
      r := Ok(OpaqueDrops(name, Type, q.value));
    }

    /** One `for (String dropStatement : ...) jdbcTemplate.execute(dropStatement)` loop of doClean. */
    method ExecuteAll(stmts: seq<Stmt>) returns (o: Outcome<Error>)
      modifies db
      ensures (db.State(), o) == Run(old(db.State()), stmts, db.rejects)
    {
      o := Pass;
      var i := 0;
      while i < |stmts|
        invariant 0 <= i <= |stmts|
        invariant o == Pass
        invariant Run(old(db.State()), stmts, db.rejects) == Run(db.State(), stmts[i..], db.rejects)
      {
        assert stmts[i..][1..] == stmts[i + 1..];
        o := db.Execute(stmts[i]);
        if o.Fail? {
          return;
        }
        i := i + 1;
      }
    }

    /** The `for (Table table : allTables()) table.drop()` loop of doClean. */
    method DropTables(tables: array<Db2iTable>) returns (o: Outcome<Error>)
      requires forall i :: 0 <= i < tables.Length ==> tables[i].db == db
      modifies db
      ensures (db.State(), o) == Run(old(db.State()), TableStmts(tables[..]), db.rejects)
    {
      ghost var stmts := TableStmts(tables[..]);
      o := Pass;
      var i := 0;
      while i < tables.Length
        invariant 0 <= i <= tables.Length
        invariant o == Pass
        invariant Run(old(db.State()), stmts, db.rejects) == Run(db.State(), stmts[i..], db.rejects)
      {
        assert stmts[i..][1..] == stmts[i + 1..];
        o := tables[i].Drop();
        if o.Fail? {
          return;
        }
        i := i + 1;
      }
    }

    /** One of the eight blocks of doClean: generate the drops of kind `k`, then execute them. */
    method RunPhase(k: Kind) returns (o: Outcome<Error>)
      modifies db
      ensures (db.State(), o) == Phase(old(db.State()), name, k, Environment())
    {
      var r: Result<seq<Stmt>, Error>;
      match k {
        case View =>
          r := GenerateDropStatementsForViews();
        case Alias =>
          r := GenerateDropStatements("ALIAS");
        case Table =>
          var tables := AllTables();
          if tables.Err? {
            return Fail(tables.error);
          }
          o := DropTables(tables.value);
          return;
        case Sequence =>
          r := GenerateDropStatementsForSequences();
        case Procedure =>
          r := GenerateDropStatementsForProcedures();
        case Trigger =>
          r := GenerateDropStatementsForTriggers();
        case Function =>
          r := AllFunctions();
        case Type =>
          r := AllTypes();
      }
      if r.Err? {
        return Fail(r.error);
      }
      o := ExecuteAll(r.value);
    }

    /**
      doClean: the eight blocks of the source, one per kind, run in DropOrder
      (views, aliases, tables, sequences, procedures, triggers, functions,
      types); the first error ends the cleanup.
    */
    method Clean() returns (o: Outcome<Error>)
      modifies db
      ensures (db.State(), o) == CleanSpec(old(db.State()), name, Environment())
    {
      ghost var env := Environment();
      ghost var goal := CleanSpec(db.State(), name, env);
      o := Pass;
      var i := 0;
      while i < |DropOrder|
        invariant 0 <= i <= |DropOrder|
        invariant o == Pass
        invariant Environment() == env
        invariant goal == CleanFrom(db.State(), name, DropOrder[i..], env)
      {
        ghost var before := db.State();
        o := RunPhase(DropOrder[i]);
        CleanFromStep(before, name, DropOrder[i..], env, db.State(), o);
        if o.Fail? {
          return;
        }
        assert DropOrder[i..][1..] == DropOrder[i + 1..];
        i := i + 1;
      }
    }
  }

  /** getSchema(name): a schema handle for exactly the given name. */
  method GetSchema(db: Database, name: string, procedureSql: Option<string>) returns (s: Db2iSchema)
    ensures fresh(s) && s.db == db && s.name == name && s.procedureSql == procedureSql
  {
    s := new Db2iSchema(db, name, procedureSql);
  }
}
