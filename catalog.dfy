/**
  The database the cleanup code talks to, reduced to what it can observe:
  per schema, the names the catalog queries return for each object kind and
  the (PROCEDURE_NAME, PARAM_LIST) rows of the procedure query; and the log
  of statements the connection has been asked to execute.

  Executing a DROP statement removes the object it names from the schema
  being cleaned, under its exact name, and nothing else. A statement the
  database rejects (the set `rejects`) is still issued but changes nothing and
  fails; a catalog query for a kind in `failingQueries` fails.
*/
module Catalog {
  import opened Wrappers

  /** The object kinds the cleanup knows about. */
  datatype Kind = View | Alias | Table | Sequence | Procedure | Trigger | Function | Type

  /** A row of the procedure-signature query. */
  datatype ProcRow = ProcRow(procedureName: string, paramList: string)

  /**
    The objects of one schema: for every kind but Procedure the names its
    catalog query returns, in catalog order; for procedures the signature rows.
    The `named` entry for Procedure is never consulted.

    `excludedViews` are the views whose names are on the system-view exclusion
    list of the view-drop query (SYSTABLES, SYSVIEWS and the others): they are
    rows of SYSIBM.VIEWS, so the view count of the emptiness check sees them,
    but the view-drop query never returns them, so no drop removes them.
  */
  datatype Objects = Objects(named: map<Kind, seq<string>>, procedures: seq<ProcRow>, excludedViews: seq<string>)

  const NoObjects := Objects(map[], [], [])

  function Names(o: Objects, k: Kind): seq<string>
  {
    if k in o.named then o.named[k] else []
  }

  /** Kind `k` has no objects left in `o`. */
  predicate Gone(o: Objects, k: Kind)
  {
    if k == Procedure then o.procedures == [] else Names(o, k) == []
  }

  /** Every kind has no objects left in `o`. */
  predicate AllGone(o: Objects)
  {
    forall k: Kind :: Gone(o, k)
  }

  type Catalogs = map<string, Objects>

  /** The objects the catalog reports for `schema`; a schema that does not exist reports none. */
  function ObjectsOf(cs: Catalogs, schema: string): Objects
  {
    if schema in cs then cs[schema] else NoObjects
  }

  /** What executing a statement does to the catalog. */
  datatype Effect =
    | DropNamed(schema: string, kind: Kind, name: string)
    | DropProcedure(schema: string, row: ProcRow)
    | CreateSchema(schema: string, catalogViews: seq<string>)
    | NoCatalogChange

  /**
    A statement issued to the connection: SQL text with its effect, or a drop
    performed by a handle whose statement text is not part of this model
    (functions and user-defined types).
  */
  datatype Stmt = Sql(effect: Effect, text: string) | Opaque(effect: Effect)

  /** The error kinds that surface as SQLException in the source. */
  datatype Error =
    | Rejected(stmt: Stmt)
    | QueryFailed(kind: Kind)
    | CouldNotLoadSqlFile

  /** `s` with every occurrence of `x` removed, the rest in order. */
  function Without<T(==,!new)>(s: seq<T>, x: T): (r: seq<T>)
    ensures forall y :: y in r <==> y in s && y != x
    ensures |r| <= |s|
  {
    if s == [] then []
    else if s[0] == x then Without(s[1..], x)
    else [s[0]] + Without(s[1..], x)
  }

  function Apply(cs: Catalogs, e: Effect): Catalogs
  {
    match e
    case DropNamed(schema, kind, n) =>
      if schema in cs
      then cs[schema := cs[schema].(named := cs[schema].named[kind := Without(Names(cs[schema], kind), n)])]
      else cs
    case DropProcedure(schema, row) =>
      if schema in cs then cs[schema := cs[schema].(procedures := Without(cs[schema].procedures, row))] else cs
    case CreateSchema(schema, catalogViews) =>
      if schema in cs then cs else cs[schema := Objects(map[], [], catalogViews)]
    case NoCatalogChange => cs
  }

  /** The catalog after the effects of `ss`, applied in order. */
  function ApplyAll(cs: Catalogs, ss: seq<Stmt>): Catalogs
    decreases |ss|
  {
    if ss == [] then cs else ApplyAll(Apply(cs, ss[0].effect), ss[1..])
  }

  /** What the database has observably done so far. */
  datatype DbState = DbState(catalogs: Catalogs, log: seq<Stmt>)

  /** Issuing one statement: it is logged; it takes effect unless rejected. */
  function Issue(st: DbState, s: Stmt, rejects: set<Stmt>): (DbState, Outcome<Error>)
  {
    if s in rejects then (DbState(st.catalogs, st.log + [s]), Fail(Rejected(s)))
    else (DbState(Apply(st.catalogs, s.effect), st.log + [s]), Pass)
  }

  /** Issuing `ss` one after another, stopping at the first rejected statement. */
  function Run(st: DbState, ss: seq<Stmt>, rejects: set<Stmt>): (DbState, Outcome<Error>)
    decreases |ss|
  {
    if ss == [] then (st, Pass)
    else
      var (st1, o) := Issue(st, ss[0], rejects);
      if o.Fail? then (st1, o) else Run(st1, ss[1..], rejects)
  }

  /** The answer of a name-list catalog query for kind `k` in `schema`. */
  function NamesQuery(cs: Catalogs, schema: string, k: Kind, failing: set<Kind>): Result<seq<string>, Error>
  {
    if k in failing then Err(QueryFailed(k)) else Ok(Names(ObjectsOf(cs, schema), k))
  }

  /** The catalog views the emptiness check counts rows of. */
  datatype CountedView = SysTables | SysViews | SysProcedures | SysFunctions

  /**
    Row count of a catalog view for one schema. SYSIBM.TABLES holds both base
    tables and aliases (the alias drops are enumerated from it by TABLE_TYPE);
    SYSIBM.VIEWS holds the droppable views and the excluded system views.
  */
  function RowCount(o: Objects, v: CountedView): nat
  {
    match v
    case SysTables => |Names(o, Table)| + |Names(o, Alias)|
    case SysViews => |Names(o, View)| + |o.excludedViews|
    case SysProcedures => |o.procedures|
    case SysFunctions => |Names(o, Function)|
  }

  /** The connection (JdbcTemplate) together with the database behind it. */
  class Database {
    var catalogs: Catalogs
    var log: seq<Stmt>
    const rejects: set<Stmt>
    const failingQueries: set<Kind>
    /**
      The catalog views the database itself places in every schema it
      creates; the view-drop query excludes them by name, so they are the new
      schema's `excludedViews`.
    */
    const catalogViews: seq<string>

    constructor (catalogs: Catalogs, rejects: set<Stmt>, failingQueries: set<Kind>, catalogViews: seq<string>)
      ensures this.catalogs == catalogs && log == []
      ensures this.rejects == rejects && this.failingQueries == failingQueries
      ensures this.catalogViews == catalogViews
    {
      this.catalogs := catalogs;
      this.log := [];
      this.rejects := rejects;
      this.failingQueries := failingQueries;
      this.catalogViews := catalogViews;
    }

    function State(): DbState
      reads this
    {
      DbState(catalogs, log)
    }

    /** jdbcTemplate.execute / update */
    method Execute(s: Stmt) returns (o: Outcome<Error>)
      modifies this
      ensures (State(), o) == Issue(old(State()), s, rejects)
    {
      log := log + [s];
      if s in rejects {
        o := Fail(Rejected(s));
      } else {
        catalogs := Apply(catalogs, s.effect);
        o := Pass;
      }
    }

    /** jdbcTemplate.queryForStringList on the catalog query for kind `k` */
    method QueryNames(schema: string, k: Kind) returns (r: Result<seq<string>, Error>)
      ensures r == NamesQuery(catalogs, schema, k, failingQueries)
    {
      if k in failingQueries {
        r := Err(QueryFailed(k));
      } else {
        r := Ok(Names(ObjectsOf(catalogs, schema), k));
      }
    }

    /** jdbcTemplate.queryForList on the procedure-signature query */
    method QueryProcedures(schema: string) returns (r: Result<seq<ProcRow>, Error>)
      ensures Procedure in failingQueries ==> r == Err(QueryFailed(Procedure))
      ensures Procedure !in failingQueries ==> r == Ok(ObjectsOf(catalogs, schema).procedures)
    {
      if Procedure in failingQueries {
        r := Err(QueryFailed(Procedure));
      } else {
        r := Ok(ObjectsOf(catalogs, schema).procedures);
      }
    }

    /** jdbcTemplate.queryForInt on a `select count(*)` over a catalog view */
    method CountRows(schema: string, v: CountedView) returns (n: nat)
      ensures n == RowCount(ObjectsOf(catalogs, schema), v)
    {
      n := RowCount(ObjectsOf(catalogs, schema), v);
    }

    /** jdbcTemplate.queryForInt on SYSIBM.SCHEMATA */
    method CountSchemata(schema: string) returns (n: nat)
      ensures n == if schema in catalogs then 1 else 0
    {
      n := if schema in catalogs then 1 else 0;
    }
  }
}
