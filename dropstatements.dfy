/**
  The drop statements the schema cleanup generates from catalog query results:
  `prefix + " " + name` for views, aliases, sequences and triggers, and
  `DROP PROCEDURE name ( params )` for procedure signature rows.
*/
module DropStatements {
  import opened Catalog

  /** Statement `i` drops `names[i]` of kind `kind` and reads `prefix + " " + names[i]`. */
  function NamedDrops(schema: string, kind: Kind, prefix: string, names: seq<string>): seq<Stmt>
  {
    seq(|names|, i requires 0 <= i < |names| => Sql(DropNamed(schema, kind, names[i]), prefix + " " + names[i]))
  }

  /** buildDropStatements: one statement per name the query returned, in the same order. */
  method BuildDropStatements(schema: string, kind: Kind, prefix: string, names: seq<string>)
    returns (stmts: seq<Stmt>)
    ensures |stmts| == |names|
    ensures forall i :: 0 <= i < |names| ==>
      stmts[i].Sql? && stmts[i].text == prefix + " " + names[i]
      && stmts[i].effect == DropNamed(schema, kind, names[i])
    ensures stmts == NamedDrops(schema, kind, prefix, names)
  {
    stmts := [];
    var i := 0;
    while i < |names|
      invariant 0 <= i <= |names|
      invariant |stmts| == i
      invariant forall j :: 0 <= j < i ==> stmts[j] == Sql(DropNamed(schema, kind, names[j]), prefix + " " + names[j])
    {
      stmts := stmts + [Sql(DropNamed(schema, kind, names[i]), prefix + " " + names[i])];
      i := i + 1;
    }
  }

  /** The text of the statement dropping one procedure overload. */
  function ProcedureDropText(row: ProcRow): string
  {
    "DROP PROCEDURE " + row.procedureName + " ( " + row.paramList + " )"
  }

  function ProcedureDrops(schema: string, rows: seq<ProcRow>): seq<Stmt>
  {
    seq(|rows|, i requires 0 <= i < |rows| => Sql(DropProcedure(schema, rows[i]), ProcedureDropText(rows[i])))
  }

  /** The loop of generateDropStatementsForProcedures: one statement per row, in row order. */
  method BuildProcedureDropStatements(schema: string, rows: seq<ProcRow>) returns (stmts: seq<Stmt>)
    ensures |stmts| == |rows|
    ensures forall i :: 0 <= i < |rows| ==>
      stmts[i].Sql? && stmts[i].effect == DropProcedure(schema, rows[i])
      && stmts[i].text == "DROP PROCEDURE " + rows[i].procedureName + " ( " + rows[i].paramList + " )"
    ensures stmts == ProcedureDrops(schema, rows)
  {
    stmts := [];
    var i := 0;
    while i < |rows|
      invariant 0 <= i <= |rows|
      invariant |stmts| == i
      invariant forall j :: 0 <= j < i ==> stmts[j] == Sql(DropProcedure(schema, rows[j]), ProcedureDropText(rows[j]))
    {
      stmts := stmts + [Sql(DropProcedure(schema, rows[i]), ProcedureDropText(rows[i]))];
      i := i + 1;
    }
  }

  lemma AppendCancel(p: string, a: string, b: string, q: string)
    requires p + a + q == p + b + q
    ensures a == b
  {
    assert a == (p + a + q)[|p|..|p| + |a|];
    assert |a| == |b|;
    assert b == (p + b + q)[|p|..|p| + |b|];
  }

  /** Two overloads of one procedure (same name, different parameter lists) get distinct statements. */
  lemma OverloadsGetDistinctStatements(r1: ProcRow, r2: ProcRow)
    requires r1.procedureName == r2.procedureName
    ensures ProcedureDropText(r1) == ProcedureDropText(r2) <==> r1.paramList == r2.paramList
  {
    var p := "DROP PROCEDURE " + r1.procedureName + " ( ";
    assert ProcedureDropText(r1) == p + r1.paramList + " )";
    assert ProcedureDropText(r2) == p + r2.paramList + " )";
    if ProcedureDropText(r1) == ProcedureDropText(r2) {
      AppendCancel(p, r1.paramList, r2.paramList, " )");
    }
  }

  /** Drops performed by handles (functions, types) whose statement text is not modelled. */
  function OpaqueDrops(schema: string, kind: Kind, names: seq<string>): seq<Stmt>
  {
    seq(|names|, i requires 0 <= i < |names| => Opaque(DropNamed(schema, kind, names[i])))
  }
}
