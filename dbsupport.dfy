/**
  DB2 for iSeries dialect support: identifier quoting, boolean literals,
  capability flags and the current-schema statement.
*/
module DbSupport {
  import opened Wrappers
  import opened Catalog

  /** Wraps an identifier in double quotes; embedded quotes are not escaped. */
  function Quote(identifier: string): (r: string)
    ensures |r| == |identifier| + 2
    ensures r[0] == '"' && r[|r| - 1] == '"'
    ensures r[1..|r| - 1] == identifier
  {
    "\"" + identifier + "\""
  }

  lemma QuoteInjective(x: string, y: string)
    ensures Quote(x) == Quote(y) <==> x == y
  {
    if Quote(x) == Quote(y) {
      assert x == Quote(x)[1..|Quote(x)| - 1];
    }
  }

  /** Quoting an already quoted identifier quotes it again: the result is longer and different. */
  lemma QuoteNotIdempotent(x: string)
    ensures Quote(Quote(x)) != Quote(x)
    ensures |Quote(Quote(x))| == |Quote(x)| + 2
    ensures Quote(Quote(x))[1] == '"' && Quote(Quote(x))[2..|x| + 2] == x
  {
    assert Quote(Quote(x)) == "\"\"" + x + "\"\"";
  }

  /** A double quote inside the identifier stays a bare double quote inside the result. */
  lemma QuoteDoesNotEscape(x: string, i: nat)
    requires i < |x| && x[i] == '"'
    ensures Quote(x)[i + 1] == '"'
    ensures |Quote(x)| == |x| + 2
  {
    assert Quote(x)[1..|Quote(x)| - 1][i] == x[i];
  }

  /**
    The two-part quote(schema, name) of the DbSupport base class, which is not
    part of this model: taken to be each part quoted, joined by a dot.
  */
  function QuoteQualified(schema: string, name: string): (r: string)
    ensures |r| == |schema| + |name| + 5
    ensures r[..|schema| + 2] == Quote(schema)
    ensures r[|schema| + 2] == '.'
    ensures r[|schema| + 3..] == Quote(name)
  {
    Quote(schema) + "." + Quote(name)
  }

  /** Without embedded double quotes a qualified name determines both of its parts. */
  lemma QuoteQualifiedInjective(s1: string, n1: string, s2: string, n2: string)
    requires '"' !in s1 && '"' !in s2
    requires QuoteQualified(s1, n1) == QuoteQualified(s2, n2)
    ensures s1 == s2 && n1 == n2
  {
    QuoteInjective(s1, s2);
    QuoteInjective(n1, n2);
  }

  /** With an embedded double quote two different (schema, name) pairs give the same text. */
  lemma QuoteQualifiedAmbiguous()
    ensures QuoteQualified("a\".\"b", "c") == QuoteQualified("a", "b\".\"c")
  {
  }

  function GetDbName(): (r: string)
    ensures r == "db2i"
  {
    "db2i"
  }

  function GetBooleanTrue(): string
  {
    "1"
  }

  function GetBooleanFalse(): string
  {
    "0"
  }

  /** The literals for true and false are one character each and differ. */
  lemma BooleanLiterals()
    ensures GetBooleanTrue() == "1" && GetBooleanFalse() == "0"
    ensures GetBooleanTrue() != GetBooleanFalse()
  {
  }

  function SupportsDdlTransactions(): bool
  {
    true
  }

  function CatalogIsSchema(): bool
  {
    false
  }

  /** DDL statements take part in transactions. */
  lemma DdlIsTransactional()
    ensures SupportsDdlTransactions()
  {
  }

  /** Catalog and schema are different levels. */
  lemma CatalogIsNotSchema()
    ensures !CatalogIsSchema()
  {
  }

  /** The statement that switches the current schema: the name follows `SET SCHEMA ` unquoted. */
  function ChangeCurrentSchemaStatement(schema: string): (r: string)
    ensures |r| == 11 + |schema|
    ensures r[..11] == "SET SCHEMA " && r[11..] == schema
  {
    "SET SCHEMA " + schema
  }

  /** Different schema names give different SET SCHEMA statements. */
  lemma ChangeCurrentSchemaInjective(a: string, b: string)
    ensures ChangeCurrentSchemaStatement(a) == ChangeCurrentSchemaStatement(b) <==> a == b
  {
    if ChangeCurrentSchemaStatement(a) == ChangeCurrentSchemaStatement(b) {
      assert a == ChangeCurrentSchemaStatement(a)[11..];
    }
  }

  /** doChangeCurrentSchemaTo: issues the SET SCHEMA statement; the catalog is not changed. */
  method ChangeCurrentSchemaTo(db: Database, schema: string) returns (o: Outcome<Error>)
    modifies db
    ensures db.catalogs == old(db.catalogs)
    ensures db.log == old(db.log) + [Sql(NoCatalogChange, ChangeCurrentSchemaStatement(schema))]
    ensures o.Pass? <==> Sql(NoCatalogChange, ChangeCurrentSchemaStatement(schema)) !in db.rejects
  {
    o := db.Execute(Sql(NoCatalogChange, ChangeCurrentSchemaStatement(schema)));
  }
}
