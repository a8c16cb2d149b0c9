/** DB2 for iSeries table handle: drop, existence check and exclusive lock. */
module Tables {
  import opened Wrappers
  import opened Catalog
  import opened DbSupport

  /** The statement doDrop issues: DROP TABLE "schema"."table". */
  function DropTableStmt(schema: string, table: string): Stmt
  {
    Sql(DropNamed(schema, Table, table), "DROP TABLE " + QuoteQualified(schema, table))
  }

  /** The drop text is DROP TABLE followed by the quoted schema and the quoted table name. */
  lemma DropTableText(schema: string, table: string)
    ensures var t := DropTableStmt(schema, table).text;
      |t| == 11 + |schema| + |table| + 5
      && t[..11] == "DROP TABLE "
      && t[11..13 + |schema|] == Quote(schema)
      && t[13 + |schema|] == '.'
      && t[14 + |schema|..] == Quote(table)
  {
    var q := QuoteQualified(schema, table);
    var t := "DROP TABLE " + q;
    assert t[11..13 + |schema|] == q[..|schema| + 2];
    assert t[14 + |schema|..] == q[|schema| + 3..];
  }

  /** For names without double quotes, different tables get different drop statements. */
  lemma DropTableDistinct(s1: string, t1: string, s2: string, t2: string)
    requires '"' !in s1 && '"' !in s2
    requires (s1, t1) != (s2, t2)
    ensures DropTableStmt(s1, t1).text != DropTableStmt(s2, t2).text
  {
    var p := "DROP TABLE ";
    if DropTableStmt(s1, t1).text == DropTableStmt(s2, t2).text {
      assert QuoteQualified(s1, t1) == (p + QuoteQualified(s1, t1))[11..];
      assert QuoteQualified(s2, t2) == (p + QuoteQualified(s2, t2))[11..];
      QuoteQualifiedInjective(s1, t1, s2, t2);
    }
  }

  /** Dropping a table removes that name from that schema's tables and changes nothing else. */
  lemma DropTableTouchesOnlyThatTable(cs: Catalogs, schema: string, table: string)
    ensures var after := Apply(cs, DropTableStmt(schema, table).effect);
      after.Keys == cs.Keys
      && (forall y :: y in Names(ObjectsOf(after, schema), Table) <==>
            y in Names(ObjectsOf(cs, schema), Table) && y != table)
      && ObjectsOf(after, schema).procedures == ObjectsOf(cs, schema).procedures
      && ObjectsOf(after, schema).excludedViews == ObjectsOf(cs, schema).excludedViews
      && (forall k :: k != Table ==> Names(ObjectsOf(after, schema), k) == Names(ObjectsOf(cs, schema), k))
      && (forall s :: s != schema ==> ObjectsOf(after, s) == ObjectsOf(cs, s))
  {
  }

  /** The statement doLock issues; the table's toString is taken to be its quoted qualified name. */
  function LockStmt(schema: string, table: string): Stmt
  {
    Sql(NoCatalogChange, "lock table " + QuoteQualified(schema, table) + " in exclusive mode")
  }

  class Db2iTable {
    const db: Database
    const schemaName: string
    const name: string

    constructor (db: Database, schemaName: string, name: string)
      ensures this.db == db && this.schemaName == schemaName && this.name == name
    {
      this.db := db;
      this.schemaName := schemaName;
      this.name := name;
    }

    /** doDrop: the name given at construction is used verbatim. */
    method Drop() returns (o: Outcome<Error>)
      modifies db
      ensures (db.State(), o) == Issue(old(db.State()), DropTableStmt(schemaName, name), db.rejects)
    {
      o := db.Execute(Sql(DropNamed(schemaName, Table, name), "DROP TABLE " + QuoteQualified(schemaName, name)));
    }

    /**
      doExists: looks the table up by its quoted name, so a stored table
      matches only when its name is exactly this one (same case).
    */
    method Exists() returns (b: bool)
      ensures b <==> name in Names(ObjectsOf(db.catalogs, schemaName), Table)
    {
      var key := Quote(name);
      var stored := Names(ObjectsOf(db.catalogs, schemaName), Table);
      b := exists i | 0 <= i < |stored| :: Quote(stored[i]) == key;
      if b {
        var i :| 0 <= i < |stored| && Quote(stored[i]) == key;
        QuoteInjective(stored[i], name);
      }
    }

    /** doLock: one update statement, which does not change the catalog. */
    method Lock() returns (o: Outcome<Error>)
      modifies db
      ensures db.catalogs == old(db.catalogs)
      ensures db.log == old(db.log) + [LockStmt(schemaName, name)]
      ensures o.Pass? <==> LockStmt(schemaName, name) !in db.rejects
    {
      o := db.Execute(LockStmt(schemaName, name));
    }
  }
}
