/**
  What doClean promises, proved about its specification CleanSpec (which the
  method Db2iSchema.Clean is shown to implement): phase order, abort on the
  first error with earlier drops kept, nothing issued on an empty schema, an
  empty schema after success, and no change outside the schema.
*/
module CleanProperties {
  import opened Wrappers
  import opened Catalog
  import opened DbSupport
  import opened DropStatements
  import opened Tables
  import opened Schemas

  /** The statements issued between two states. */
  function Issued(st: DbState, st': DbState): seq<Stmt>
    requires |st.log| <= |st'.log|
  {
    st'.log[|st.log|..]
  }

  /** `s` drops an object of `schema`. */
  predicate DropIn(s: Stmt, schema: string)
  {
    (s.effect.DropNamed? || s.effect.DropProcedure?) && s.effect.schema == schema
  }

  /** The kind a drop removes (View for statements that drop nothing). */
  function KindOf(s: Stmt): Kind
  {
    match s.effect
    case DropNamed(_, k, _) => k
    case DropProcedure(_, _) => Procedure
    case _ => View
  }

  predicate StrictlyRanked(kinds: seq<Kind>)
  {
    forall i, j :: 0 <= i < j < |kinds| ==> Rank(kinds[i]) < Rank(kinds[j])
  }

  /** `st'` extends the log of `st`. */
  predicate LogExtends(st: DbState, st': DbState)
  {
    |st.log| <= |st'.log| && st'.log[..|st.log|] == st.log
  }

  /** The issued statements that took effect: all of them but a rejected last one. */
  function Accepted(issued: seq<Stmt>, o: Outcome<Error>): seq<Stmt>
  {
    if o.Fail? && o.error.Rejected? && issued != [] then issued[..|issued| - 1] else issued
  }

  /** A rejection ends the issued statements; every accepted one was not rejected. */
  predicate FailsOnlyAtEnd(issued: seq<Stmt>, o: Outcome<Error>, rejects: set<Stmt>)
  {
    (o.Fail? && o.error.Rejected? ==>
      issued != [] && issued[|issued| - 1] == o.error.stmt && o.error.stmt in rejects)
    && forall i :: 0 <= i < |Accepted(issued, o)| ==> Accepted(issued, o)[i] !in rejects
  }

  /**
    The shape of a run that stops at the first error: the log grew by the
    statements issued and exactly the accepted ones took effect.
  */
  predicate Trace(st: DbState, st': DbState, o: Outcome<Error>, rejects: set<Stmt>)
  {
    LogExtends(st, st')
    && FailsOnlyAtEnd(Issued(st, st'), o, rejects)
    && st'.catalogs == ApplyAll(st.catalogs, Accepted(Issued(st, st'), o))
  }

  lemma {:induction false} ApplyAllAppend(cs: Catalogs, a: seq<Stmt>, b: seq<Stmt>)
    ensures ApplyAll(cs, a + b) == ApplyAll(ApplyAll(cs, a), b)
    decreases |a|
  {
    if a == [] {
      assert a + b == b;
    } else {
      assert (a + b)[0] == a[0];
      assert (a + b)[1..] == a[1..] + b;
      ApplyAllAppend(Apply(cs, a[0].effect), a[1..], b);
    }
  }

  lemma IssuedConcat(st: DbState, st1: DbState, st2: DbState)
    requires LogExtends(st, st1) && LogExtends(st1, st2)
    ensures LogExtends(st, st2)
    ensures Issued(st, st2) == Issued(st, st1) + Issued(st1, st2)
  {
    assert st2.log[..|st1.log|][..|st.log|] == st2.log[..|st.log|];
    assert st2.log[|st.log|..] == st2.log[|st.log|..|st1.log|] + st2.log[|st1.log|..];
  }

  lemma AcceptedAppend(a: seq<Stmt>, b: seq<Stmt>, o: Outcome<Error>, rejects: set<Stmt>)
    requires FailsOnlyAtEnd(a, Pass, rejects) && FailsOnlyAtEnd(b, o, rejects)
    ensures Accepted(a + b, o) == a + Accepted(b, o)
    ensures FailsOnlyAtEnd(a + b, o, rejects)
  {
    if o.Fail? && o.error.Rejected? {
      assert (a + b)[..|a + b| - 1] == a + b[..|b| - 1];
    }
    var A := Accepted(a + b, o);
    assert Accepted(a, Pass) == a;
    forall i | 0 <= i < |A|
      ensures A[i] !in rejects
    {
      if i < |a| {
        assert A[i] == a[i];
      } else {
        assert A[i] == Accepted(b, o)[i - |a|];
      }
    }
  }

  lemma TraceCompose(st: DbState, st1: DbState, st2: DbState, o: Outcome<Error>, rejects: set<Stmt>)
    requires Trace(st, st1, Pass, rejects) && Trace(st1, st2, o, rejects)
    ensures Trace(st, st2, o, rejects)
  {
    IssuedConcat(st, st1, st2);
    AcceptedAppend(Issued(st, st1), Issued(st1, st2), o, rejects);
    ApplyAllAppend(st.catalogs, Issued(st, st1), Accepted(Issued(st1, st2), o));
  }

  lemma IssueTrace(st: DbState, s: Stmt, rejects: set<Stmt>)
    ensures var (st1, o) := Issue(st, s, rejects); Trace(st, st1, o, rejects)
  {
    var (st1, o) := Issue(st, s, rejects);
    assert Issued(st, st1) == [s];
    assert ApplyAll(st.catalogs, [s]) == Apply(st.catalogs, s.effect);
  }

  lemma {:induction false} RunTrace(st: DbState, ss: seq<Stmt>, rejects: set<Stmt>)
    ensures var (st', o) := Run(st, ss, rejects); Trace(st, st', o, rejects)
    decreases |ss|
  {
    if ss == [] {
      assert Issued(st, st) == [];
    } else {
      IssueTrace(st, ss[0], rejects);
      var (st1, o) := Issue(st, ss[0], rejects);
      if o.Pass? {
        RunTrace(st1, ss[1..], rejects);
        var (st2, o2) := Run(st1, ss[1..], rejects);
        TraceCompose(st, st1, st2, o2, rejects);
      }
    }
  }

  lemma {:induction false} CleanFromTrace(st: DbState, schema: string, kinds: seq<Kind>, env: Env)
    ensures var (st', o) := CleanFrom(st, schema, kinds, env); Trace(st, st', o, env.rejects)
    decreases |kinds|
  {
    if kinds != [] {
      match PhaseStatements(schema, ObjectsOf(st.catalogs, schema), kinds[0], env)
      case Err(e) =>
        assert Issued(st, st) == [];
      case Ok(ss) =>
        RunTrace(st, ss, env.rejects);
        var (st1, o) := Run(st, ss, env.rejects);
        if o.Pass? {
          CleanFromTrace(st1, schema, kinds[1..], env);
          var (st2, o2) := CleanFrom(st1, schema, kinds[1..], env);
          TraceCompose(st, st1, st2, o2, env.rejects);
        }
    }
  }

  /** Trace spelled out: the issued statements, the rejected last one, the accepted rest. */
  lemma TraceSpelledOut(st: DbState, st': DbState, o: Outcome<Error>, rejects: set<Stmt>)
    requires Trace(st, st', o, rejects)
    ensures |st.log| <= |st'.log| && st'.log[..|st.log|] == st.log
    ensures var L := Issued(st, st');
      (o.Fail? && o.error.Rejected? ==>
        L != [] && L[|L| - 1] == o.error.stmt && o.error.stmt in rejects
        && (forall i :: 0 <= i < |L| - 1 ==> L[i] !in rejects)
        && st'.catalogs == ApplyAll(st.catalogs, L[..|L| - 1]))
      && (!(o.Fail? && o.error.Rejected?) ==>
        (forall i :: 0 <= i < |L| ==> L[i] !in rejects)
        && st'.catalogs == ApplyAll(st.catalogs, L))
  {
  }

  /**
    doClean has no error handling: a rejected drop is the last statement
    issued; every statement before it was accepted and stays applied; an
    error of another kind (a failed query, the missing SQL resource) leaves
    every issued statement applied.
  */
  lemma CleanStopsAtFirstError(st: DbState, schema: string, env: Env)
    ensures var (st', o) := CleanSpec(st, schema, env);
      |st.log| <= |st'.log| && st'.log[..|st.log|] == st.log
      && var L := Issued(st, st');
      (o.Fail? && o.error.Rejected? ==>
        L != [] && L[|L| - 1] == o.error.stmt && o.error.stmt in env.rejects
        && (forall i :: 0 <= i < |L| - 1 ==> L[i] !in env.rejects)
        && st'.catalogs == ApplyAll(st.catalogs, L[..|L| - 1]))
      && (!(o.Fail? && o.error.Rejected?) ==>
        (forall i :: 0 <= i < |L| ==> L[i] !in env.rejects)
        && st'.catalogs == ApplyAll(st.catalogs, L))
  {
    CleanFromTrace(st, schema, DropOrder, env);
    var (st', o) := CleanSpec(st, schema, env);
    TraceSpelledOut(st, st', o, env.rejects);
  }

  lemma {:induction false} RunLogsPrefix(st: DbState, ss: seq<Stmt>, rejects: set<Stmt>)
    ensures var st' := Run(st, ss, rejects).0;
      |st.log| <= |st'.log| <= |st.log| + |ss|
      && st'.log == st.log + ss[..|st'.log| - |st.log|]
    decreases |ss|
  {
    if ss != [] {
      var (st1, o) := Issue(st, ss[0], rejects);
      if o.Pass? {
        RunLogsPrefix(st1, ss[1..], rejects);
        var st' := Run(st1, ss[1..], rejects).0;
        var m := |st'.log| - |st1.log|;
        assert ss[..m + 1] == [ss[0]] + ss[1..][..m];
      }
    }
  }

  /** Every statement of `L` drops an object of `schema` of kind `k`. */
  predicate AllOfKind(L: seq<Stmt>, schema: string, k: Kind)
  {
    forall i :: 0 <= i < |L| ==> DropIn(L[i], schema) && KindOf(L[i]) == k
  }

  /** Every statement of `L` drops an object of `schema` of one of `kinds`. */
  predicate KindsAmong(L: seq<Stmt>, schema: string, kinds: seq<Kind>)
  {
    forall i :: 0 <= i < |L| ==> DropIn(L[i], schema) && KindOf(L[i]) in kinds
  }

  /** The kinds of the drops in `L` never go back in DropOrder. */
  predicate RankSorted(L: seq<Stmt>)
  {
    forall i, j :: 0 <= i < j < |L| ==> Rank(KindOf(L[i])) <= Rank(KindOf(L[j]))
  }

  lemma PhaseStatementsShape(schema: string, o: Objects, k: Kind, env: Env)
    ensures var r := PhaseStatements(schema, o, k, env);
      r.Ok? ==> AllOfKind(r.value, schema, k)
  {
  }

  lemma AllOfKindPrefix(ss: seq<Stmt>, n: nat, schema: string, k: Kind)
    requires n <= |ss| && AllOfKind(ss, schema, k)
    ensures AllOfKind(ss[..n], schema, k)
  {
  }

  lemma SortedAppend(P: seq<Stmt>, R: seq<Stmt>, schema: string, kinds: seq<Kind>)
    requires kinds != [] && StrictlyRanked(kinds)
    requires AllOfKind(P, schema, kinds[0])
    requires KindsAmong(R, schema, kinds[1..]) && RankSorted(R)
    ensures KindsAmong(P + R, schema, kinds) && RankSorted(P + R)
  {
    var L := P + R;
    forall j | 0 <= j < |R|
      ensures Rank(kinds[0]) < Rank(KindOf(R[j]))
    {
      assert KindOf(R[j]) in kinds[1..];
      var t :| 0 <= t < |kinds[1..]| && kinds[1..][t] == KindOf(R[j]);
      assert kinds[t + 1] == kinds[1..][t];
    }
    forall i, j | 0 <= i < j < |L|
      ensures Rank(KindOf(L[i])) <= Rank(KindOf(L[j]))
    {
      if j < |P| {
        assert L[i] == P[i] && L[j] == P[j];
      } else if i < |P| {
        assert L[i] == P[i] && L[j] == R[j - |P|];
      } else {
        assert L[i] == R[i - |P|] && L[j] == R[j - |P|];
      }
    }
    forall i | 0 <= i < |L|
      ensures DropIn(L[i], schema) && KindOf(L[i]) in kinds
    {
      if i < |P| {
        assert L[i] == P[i];
      } else {
        assert L[i] == R[i - |P|];
        assert KindOf(R[i - |P|]) in kinds[1..];
      }
    }
  }

  /** The statements one phase issues are drops of its kind. */
  lemma PhaseIssuesItsKind(st: DbState, schema: string, k: Kind, env: Env)
    ensures var st1 := Phase(st, schema, k, env).0;
      LogExtends(st, st1) && AllOfKind(Issued(st, st1), schema, k)
  {
    var o0 := ObjectsOf(st.catalogs, schema);
    PhaseStatementsShape(schema, o0, k, env);
    match PhaseStatements(schema, o0, k, env)
    case Err(e) =>
      assert Issued(st, st) == [];
    case Ok(ss) =>
      RunLogsPrefix(st, ss, env.rejects);
      var st1 := Run(st, ss, env.rejects).0;
      assert Issued(st, st1) == ss[..|st1.log| - |st.log|];
      AllOfKindPrefix(ss, |st1.log| - |st.log|, schema, k);
  }

  lemma {:induction false} CleanFromOrdered(st: DbState, schema: string, kinds: seq<Kind>, env: Env)
    requires StrictlyRanked(kinds)
    ensures var st' := CleanFrom(st, schema, kinds, env).0;
      LogExtends(st, st') && KindsAmong(Issued(st, st'), schema, kinds) && RankSorted(Issued(st, st'))
    decreases |kinds|
  {
    if kinds == [] {
      assert Issued(st, st) == [];
    } else {
      PhaseIssuesItsKind(st, schema, kinds[0], env);
      var (st1, o) := Phase(st, schema, kinds[0], env);
      if o.Fail? {
        SortedAppend(Issued(st, st1), [], schema, kinds);
        assert Issued(st, st1) + [] == Issued(st, st1);
      } else {
        assert StrictlyRanked(kinds[1..]);
        CleanFromOrdered(st1, schema, kinds[1..], env);
        var st2 := CleanFrom(st1, schema, kinds[1..], env).0;
        IssuedConcat(st, st1, st2);
        SortedAppend(Issued(st, st1), Issued(st1, st2), schema, kinds);
      }
    }
  }

  lemma DropOrderRanked()
    ensures StrictlyRanked(DropOrder)
    ensures |DropOrder| == 8 && forall k: Kind :: DropOrder[Rank(k)] == k
  {
  }

  lemma SortedSpelledOut(L: seq<Stmt>, schema: string, kinds: seq<Kind>)
    requires KindsAmong(L, schema, kinds) && RankSorted(L)
    ensures forall i :: 0 <= i < |L| ==> DropIn(L[i], schema)
    ensures forall i, j :: 0 <= i < j < |L| ==> Rank(KindOf(L[i])) <= Rank(KindOf(L[j]))
  {
  }

  /**
    doClean issues only drops of objects of the schema, and all drops of one
    kind come before all drops of a kind later in DropOrder: views, aliases,
    tables, sequences, procedures, triggers, functions, types.
  */
  lemma CleanRunsPhasesInOrder(st: DbState, schema: string, env: Env)
    ensures var st' := CleanSpec(st, schema, env).0;
      |st.log| <= |st'.log| && st'.log[..|st.log|] == st.log
      && var L := Issued(st, st');
      (forall i :: 0 <= i < |L| ==> DropIn(L[i], schema))
      && (forall i, j :: 0 <= i < j < |L| ==> Rank(KindOf(L[i])) <= Rank(KindOf(L[j])))
  {
    DropOrderRanked();
    CleanFromOrdered(st, schema, DropOrder, env);
    var st' := CleanSpec(st, schema, env).0;
    SortedSpelledOut(Issued(st, st'), schema, DropOrder);
  }

  /** A phase whose kind has no objects issues nothing; it fails only if its query or resource does. */
  lemma PhaseOnGone(st: DbState, schema: string, k: Kind, env: Env)
    requires Gone(ObjectsOf(st.catalogs, schema), k)
    requires k !in env.failing && (k == Procedure ==> env.procedureSqlLoaded)
    ensures Phase(st, schema, k, env) == (st, Pass)
  {
    var r := PhaseStatements(schema, ObjectsOf(st.catalogs, schema), k, env);
    assert r.Ok? && |r.value| == 0;
  }

  lemma {:induction false} CleanFromOnEmpty(st: DbState, schema: string, kinds: seq<Kind>, env: Env)
    requires AllGone(ObjectsOf(st.catalogs, schema))
    ensures CleanFrom(st, schema, kinds, env).0 == st
    ensures CleanFrom(st, schema, kinds, env).1 == Pass <==>
      forall t :: 0 <= t < |kinds| ==> kinds[t] !in env.failing && (kinds[t] == Procedure ==> env.procedureSqlLoaded)
    decreases |kinds|
  {
    if kinds != [] {
      assert Gone(ObjectsOf(st.catalogs, schema), kinds[0]);
      CleanFromOnEmpty(st, schema, kinds[1..], env);
      if kinds[0] !in env.failing && (kinds[0] == Procedure ==> env.procedureSqlLoaded) {
        PhaseOnGone(st, schema, kinds[0], env);
        forall t | 1 <= t < |kinds|
          ensures kinds[t] == kinds[1..][t - 1]
        {
        }
      }
    }
  }

  /**
    On a schema whose catalog queries all return empty lists doClean issues
    no statement and changes nothing; it succeeds exactly when the SQL
    resource loads and no query fails.
  */
  lemma CleanOnEmptySchemaIssuesNothing(st: DbState, schema: string, env: Env)
    requires AllGone(ObjectsOf(st.catalogs, schema))
    ensures CleanSpec(st, schema, env).0 == st
    ensures CleanSpec(st, schema, env).1 == Pass <==> env.procedureSqlLoaded && env.failing == {}
  {
    CleanFromOnEmpty(st, schema, DropOrder, env);
    if CleanSpec(st, schema, env).1 == Pass {
      NothingBlockedInDropOrder(env);
    }
  }

  lemma ApplyKeepsGone(cs: Catalogs, e: Effect, schema: string, k: Kind)
    requires Gone(ObjectsOf(cs, schema), k)
    ensures Gone(ObjectsOf(Apply(cs, e), schema), k)
  {
  }

  lemma {:induction false} RunKeepsGone(st: DbState, ss: seq<Stmt>, rejects: set<Stmt>, schema: string, k: Kind)
    requires Gone(ObjectsOf(st.catalogs, schema), k)
    ensures Gone(ObjectsOf(Run(st, ss, rejects).0.catalogs, schema), k)
    decreases |ss|
  {
    if ss != [] {
      ApplyKeepsGone(st.catalogs, ss[0].effect, schema, k);
      var (st1, o) := Issue(st, ss[0], rejects);
      if o.Pass? {
        RunKeepsGone(st1, ss[1..], rejects, schema, k);
      }
    }
  }

  lemma {:induction false} CleanFromKeepsGone(st: DbState, schema: string, kinds: seq<Kind>, env: Env, k: Kind)
    requires Gone(ObjectsOf(st.catalogs, schema), k)
    ensures Gone(ObjectsOf(CleanFrom(st, schema, kinds, env).0.catalogs, schema), k)
    decreases |kinds|
  {
    if kinds != [] {
      match PhaseStatements(schema, ObjectsOf(st.catalogs, schema), kinds[0], env)
      case Err(e) =>
      case Ok(ss) =>
        RunKeepsGone(st, ss, env.rejects, schema, k);
        var (st1, o) := Run(st, ss, env.rejects);
        if o.Pass? {
          CleanFromKeepsGone(st1, schema, kinds[1..], env, k);
        }
    }
  }

  /** A run of drops of `names` that succeeds leaves only names it did not drop. */
  lemma {:induction false} RunDropsNames(st: DbState, ss: seq<Stmt>, rejects: set<Stmt>, schema: string, k: Kind, names: seq<string>)
    requires |ss| == |names|
    requires forall i :: 0 <= i < |ss| ==> ss[i].effect == DropNamed(schema, k, names[i])
    requires Run(st, ss, rejects).1 == Pass
    ensures forall y :: y in Names(ObjectsOf(Run(st, ss, rejects).0.catalogs, schema), k) ==>
      y in Names(ObjectsOf(st.catalogs, schema), k) && y !in names
    decreases |ss|
  {
    if ss != [] {
      var (st1, o) := Issue(st, ss[0], rejects);
      RunDropsNames(st1, ss[1..], rejects, schema, k, names[1..]);
      forall y | y in Names(ObjectsOf(Run(st, ss, rejects).0.catalogs, schema), k)
        ensures y in Names(ObjectsOf(st.catalogs, schema), k) && y !in names
      {
        assert y in Names(ObjectsOf(st1.catalogs, schema), k) && y !in names[1..];
        assert names == [names[0]] + names[1..];
      }
    }
  }

  /** A run of drops of procedure `rows` that succeeds leaves only rows it did not drop. */
  lemma {:induction false} RunDropsRows(st: DbState, ss: seq<Stmt>, rejects: set<Stmt>, schema: string, rows: seq<ProcRow>)
    requires |ss| == |rows|
    requires forall i :: 0 <= i < |ss| ==> ss[i].effect == DropProcedure(schema, rows[i])
    requires Run(st, ss, rejects).1 == Pass
    ensures forall y :: y in ObjectsOf(Run(st, ss, rejects).0.catalogs, schema).procedures ==>
      y in ObjectsOf(st.catalogs, schema).procedures && y !in rows
    decreases |ss|
  {
    if ss != [] {
      var (st1, o) := Issue(st, ss[0], rejects);
      RunDropsRows(st1, ss[1..], rejects, schema, rows[1..]);
      forall y | y in ObjectsOf(Run(st, ss, rejects).0.catalogs, schema).procedures
        ensures y in ObjectsOf(st.catalogs, schema).procedures && y !in rows
      {
        assert y in ObjectsOf(st1.catalogs, schema).procedures && y !in rows[1..];
        assert rows == [rows[0]] + rows[1..];
      }
    }
  }

  lemma FirstIsMember<T>(s: seq<T>)
    ensures s != [] ==> s[0] in s
  {
  }

  lemma NoMembersIsEmpty<T>(s: seq<T>)
    requires forall y :: y !in s
    ensures s == []
  {
    FirstIsMember(s);
  }

  /** A phase that succeeds leaves no object of its kind. */
  lemma PhaseEmptiesItsKind(st: DbState, schema: string, k: Kind, env: Env)
    requires Phase(st, schema, k, env).1 == Pass
    ensures Gone(ObjectsOf(Phase(st, schema, k, env).0.catalogs, schema), k)
  {
    var o := ObjectsOf(st.catalogs, schema);
    var ss := PhaseStatements(schema, o, k, env).value;
    var after := ObjectsOf(Phase(st, schema, k, env).0.catalogs, schema);
    if k == Procedure {
      RunDropsRows(st, ss, env.rejects, schema, o.procedures);
      NoMembersIsEmpty(after.procedures);
    } else {
      RunDropsNames(st, ss, env.rejects, schema, k, Names(o, k));
      NoMembersIsEmpty(Names(after, k));
    }
  }

  lemma {:induction false} CleanFromEmpties(st: DbState, schema: string, kinds: seq<Kind>, env: Env)
    requires CleanFrom(st, schema, kinds, env).1 == Pass
    ensures forall t :: 0 <= t < |kinds| ==> Gone(ObjectsOf(CleanFrom(st, schema, kinds, env).0.catalogs, schema), kinds[t])
    ensures forall t :: 0 <= t < |kinds| ==> kinds[t] !in env.failing && (kinds[t] == Procedure ==> env.procedureSqlLoaded)
    decreases |kinds|
  {
    if kinds != [] {
      var (st1, o) := Phase(st, schema, kinds[0], env);
      PhaseEmptiesItsKind(st, schema, kinds[0], env);
      CleanFromKeepsGone(st1, schema, kinds[1..], env, kinds[0]);
      CleanFromEmpties(st1, schema, kinds[1..], env);
      forall t | 1 <= t < |kinds|
        ensures kinds[t] == kinds[1..][t - 1]
      {
      }
    }
  }

  /** No phase of DropOrder is blocked: every query answers and the procedure SQL resource loads. */
  lemma NothingBlockedInDropOrder(env: Env)
    requires forall t :: 0 <= t < |DropOrder| ==> DropOrder[t] !in env.failing && (DropOrder[t] == Procedure ==> env.procedureSqlLoaded)
    ensures env.procedureSqlLoaded && env.failing == {}
  {
    DropOrderRanked();
    forall k: Kind
      ensures k !in env.failing
    {
      assert DropOrder[Rank(k)] == k;
    }
    assert DropOrder[Rank(Procedure)] == Procedure;
  }

  /** What holds for every position of DropOrder holds for every kind. */
  lemma EveryKindInDropOrder(o: Objects)
    requires forall t :: 0 <= t < |DropOrder| ==> Gone(o, DropOrder[t])
    ensures AllGone(o)
  {
    DropOrderRanked();
    forall k: Kind
      ensures Gone(o, k)
    {
      assert DropOrder[Rank(k)] == k;
    }
  }

  /** After a successful doClean every catalog query of the schema returns an empty list. */
  lemma CleanSucceedsOnlyWhenSchemaIsEmptied(st: DbState, schema: string, env: Env)
    requires CleanSpec(st, schema, env).1 == Pass
    ensures AllGone(ObjectsOf(CleanSpec(st, schema, env).0.catalogs, schema))
    ensures env.procedureSqlLoaded && env.failing == {}
  {
    CleanFromEmpties(st, schema, DropOrder, env);
    var st' := CleanSpec(st, schema, env).0;
    EveryKindInDropOrder(ObjectsOf(st'.catalogs, schema));
    NothingBlockedInDropOrder(env);
  }

  lemma GoneCountsEmpty(o: Objects)
    requires AllGone(o)
    ensures CountsSayEmpty(o) <==> o.excludedViews == []
  {
    assert Gone(o, Table) && Gone(o, Alias) && Gone(o, View) && Gone(o, Procedure) && Gone(o, Function);
  }

  /** A drop never removes an excluded view; only CREATE SCHEMA sets them. */
  lemma ApplyKeepsExcludedViews(cs: Catalogs, e: Effect, schema: string)
    requires e.DropNamed? || e.DropProcedure?
    ensures ObjectsOf(Apply(cs, e), schema).excludedViews == ObjectsOf(cs, schema).excludedViews
  {
  }

  lemma {:induction false} ApplyAllKeepsExcludedViews(cs: Catalogs, ss: seq<Stmt>, schema: string)
    requires forall i :: 0 <= i < |ss| ==> DropIn(ss[i], schema)
    ensures ObjectsOf(ApplyAll(cs, ss), schema).excludedViews == ObjectsOf(cs, schema).excludedViews
    decreases |ss|
  {
    if ss != [] {
      ApplyKeepsExcludedViews(cs, ss[0].effect, schema);
      ApplyAllKeepsExcludedViews(Apply(cs, ss[0].effect), ss[1..], schema);
    }
  }

  /**
    The system views the view-drop query excludes survive doClean, whatever
    its outcome: no statement it issues drops them.
  */
  lemma CleanKeepsExcludedViews(st: DbState, schema: string, env: Env)
    ensures ObjectsOf(CleanSpec(st, schema, env).0.catalogs, schema).excludedViews
      == ObjectsOf(st.catalogs, schema).excludedViews
  {
    CleanStopsAtFirstError(st, schema, env);
    CleanRunsPhasesInOrder(st, schema, env);
    var (st', o) := CleanSpec(st, schema, env);
    var L := Issued(st, st');
    if o.Fail? && o.error.Rejected? {
      ApplyAllKeepsExcludedViews(st.catalogs, L[..|L| - 1], schema);
    } else {
      ApplyAllKeepsExcludedViews(st.catalogs, L, schema);
    }
  }

  /** Every object `o1` reports, `o0` reports too, and the excluded views are the same. */
  predicate ReportsNoMoreThan(o1: Objects, o0: Objects)
  {
    (forall k: Kind, n :: n in Names(o1, k) ==> n in Names(o0, k))
    && (forall r :: r in o1.procedures ==> r in o0.procedures)
    && o1.excludedViews == o0.excludedViews
  }

  lemma ApplyReportsNoMore(cs: Catalogs, e: Effect, schema: string)
    requires e.DropNamed? || e.DropProcedure?
    ensures ReportsNoMoreThan(ObjectsOf(Apply(cs, e), schema), ObjectsOf(cs, schema))
  {
    var o0 := ObjectsOf(cs, schema);
    var o1 := ObjectsOf(Apply(cs, e), schema);
    forall k: Kind, n | n in Names(o1, k)
      ensures n in Names(o0, k)
    {
      if e.DropNamed? && e.schema == schema && schema in cs && k != e.kind {
        assert Names(o1, k) == Names(o0, k);
      }
    }
  }

  lemma {:induction false} ApplyAllReportsNoMore(cs: Catalogs, ss: seq<Stmt>, schema: string)
    requires forall i :: 0 <= i < |ss| ==> DropIn(ss[i], schema)
    ensures ReportsNoMoreThan(ObjectsOf(ApplyAll(cs, ss), schema), ObjectsOf(cs, schema))
    decreases |ss|
  {
    if ss != [] {
      ApplyReportsNoMore(cs, ss[0].effect, schema);
      ApplyAllReportsNoMore(Apply(cs, ss[0].effect), ss[1..], schema);
    }
  }

  /**
    doClean only ever removes objects: whatever its outcome, every object the
    schema reports afterwards it reported before. So re-running it after a
    failure enumerates what is left of the same objects, and nothing new.
  */
  lemma CleanOnlyShrinks(st: DbState, schema: string, env: Env)
    ensures ReportsNoMoreThan(ObjectsOf(CleanSpec(st, schema, env).0.catalogs, schema),
                              ObjectsOf(st.catalogs, schema))
  {
    CleanStopsAtFirstError(st, schema, env);
    CleanRunsPhasesInOrder(st, schema, env);
    var (st', o) := CleanSpec(st, schema, env);
    var L := Issued(st, st');
    if o.Fail? && o.error.Rejected? {
      ApplyAllReportsNoMore(st.catalogs, L[..|L| - 1], schema);
    } else {
      ApplyAllReportsNoMore(st.catalogs, L, schema);
    }
  }

  /**
    After a successful clean the emptiness check of doEmpty answers true
    exactly when the schema holds none of the system views the view-drop
    query excludes: those are still counted.
  */
  lemma CleanThenEmpty(st: DbState, schema: string, env: Env)
    requires CleanSpec(st, schema, env).1 == Pass
    ensures CountsSayEmpty(ObjectsOf(CleanSpec(st, schema, env).0.catalogs, schema))
      <==> ObjectsOf(st.catalogs, schema).excludedViews == []
  {
    CleanSucceedsOnlyWhenSchemaIsEmptied(st, schema, env);
    CleanKeepsExcludedViews(st, schema, env);
    GoneCountsEmpty(ObjectsOf(CleanSpec(st, schema, env).0.catalogs, schema));
  }

  /** Cleaning again after a successful clean issues nothing and succeeds. */
  lemma CleanIsIdempotent(st: DbState, schema: string, env: Env)
    requires CleanSpec(st, schema, env).1 == Pass
    ensures var st' := CleanSpec(st, schema, env).0;
      CleanSpec(st', schema, env) == (st', Pass)
  {
    CleanSucceedsOnlyWhenSchemaIsEmptied(st, schema, env);
    CleanOnEmptySchemaIssuesNothing(CleanSpec(st, schema, env).0, schema, env);
  }

  lemma ApplyDropInKeepsOthers(cs: Catalogs, s: Stmt, schema: string)
    requires DropIn(s, schema)
    ensures Apply(cs, s.effect).Keys == cs.Keys
    ensures forall x :: x != schema ==> ObjectsOf(Apply(cs, s.effect), x) == ObjectsOf(cs, x)
  {
  }

  lemma {:induction false} ApplyAllDropInKeepsOthers(cs: Catalogs, ss: seq<Stmt>, schema: string)
    requires forall i :: 0 <= i < |ss| ==> DropIn(ss[i], schema)
    ensures ApplyAll(cs, ss).Keys == cs.Keys
    ensures forall x :: x != schema ==> ObjectsOf(ApplyAll(cs, ss), x) == ObjectsOf(cs, x)
    decreases |ss|
  {
    if ss != [] {
      ApplyDropInKeepsOthers(cs, ss[0], schema);
      ApplyAllDropInKeepsOthers(Apply(cs, ss[0].effect), ss[1..], schema);
    }
  }

  /**
    doDrop is doClean and nothing more: the schema itself still exists
    afterwards (no DROP SCHEMA is issued), and no other schema changes.
  */
  lemma DropKeepsTheSchema(st: DbState, schema: string, env: Env)
    ensures var st' := CleanSpec(st, schema, env).0;
      st'.catalogs.Keys == st.catalogs.Keys
      && (schema in st.catalogs ==> schema in st'.catalogs)
      && forall x :: x != schema ==> ObjectsOf(st'.catalogs, x) == ObjectsOf(st.catalogs, x)
  {
    CleanStopsAtFirstError(st, schema, env);
    CleanRunsPhasesInOrder(st, schema, env);
    var (st', o) := CleanSpec(st, schema, env);
    var L := Issued(st, st');
    if o.Fail? && o.error.Rejected? {
      ApplyAllDropInKeepsOthers(st.catalogs, L[..|L| - 1], schema);
    } else {
      ApplyAllDropInKeepsOthers(st.catalogs, L, schema);
    }
  }

  /** Apart from kind `k`, `o1` reports the same objects as `o0`. */
  predicate SameOutside(o0: Objects, o1: Objects, k: Kind)
  {
    (forall k' :: k' != k ==> Names(o1, k') == Names(o0, k'))
    && (k != Procedure ==> o1.procedures == o0.procedures)
  }

  lemma {:induction false} RunOfKindSameOutside(st: DbState, ss: seq<Stmt>, rejects: set<Stmt>, schema: string, k: Kind)
    requires AllOfKind(ss, schema, k)
    ensures SameOutside(ObjectsOf(st.catalogs, schema), ObjectsOf(Run(st, ss, rejects).0.catalogs, schema), k)
    decreases |ss|
  {
    if ss != [] {
      var (st1, o) := Issue(st, ss[0], rejects);
      if o.Pass? {
        assert AllOfKind(ss[1..], schema, k);
        RunOfKindSameOutside(st1, ss[1..], rejects, schema, k);
      }
    }
  }

  lemma {:induction false} RunPassIssuesAll(st: DbState, ss: seq<Stmt>, rejects: set<Stmt>)
    requires Run(st, ss, rejects).1 == Pass
    ensures Run(st, ss, rejects).0.log == st.log + ss
    decreases |ss|
  {
    if ss == [] {
      assert st.log + ss == st.log;
    } else {
      var (st1, o) := Issue(st, ss[0], rejects);
      RunPassIssuesAll(st1, ss[1..], rejects);
      assert st.log + ss == st1.log + ss[1..];
    }
  }

  /**
    The drops the phases `kinds` would generate from the objects `o`, one
    phase after another; a phase that cannot start contributes none.
  */
  function PlannedDrops(schema: string, o: Objects, kinds: seq<Kind>, env: Env): seq<Stmt>
    decreases |kinds|
  {
    if kinds == [] then []
    else
      var here := match PhaseStatements(schema, o, kinds[0], env)
        case Ok(ss) => ss
        case Err(_) => [];
      here + PlannedDrops(schema, o, kinds[1..], env)
  }

  lemma {:induction false} PlannedIgnoresOtherKinds(schema: string, o0: Objects, o1: Objects, kinds: seq<Kind>, env: Env, k: Kind)
    requires SameOutside(o0, o1, k) && k !in kinds
    ensures PlannedDrops(schema, o1, kinds, env) == PlannedDrops(schema, o0, kinds, env)
    decreases |kinds|
  {
    if kinds != [] {
      assert kinds[0] != k;
      PlannedIgnoresOtherKinds(schema, o0, o1, kinds[1..], env, k);
    }
  }

  /** Unfolds PlannedDrops by its first phase, when that phase can start. */
  lemma PlannedStep(schema: string, o: Objects, kinds: seq<Kind>, env: Env)
    requires kinds != [] && PhaseStatements(schema, o, kinds[0], env).Ok?
    ensures PlannedDrops(schema, o, kinds, env)
      == PhaseStatements(schema, o, kinds[0], env).value + PlannedDrops(schema, o, kinds[1..], env)
  {
  }

  /**
    A phase that runs to completion logs all its drops and changes no object
    of a later kind, so the later phases plan the same drops as before it.
  */
  lemma PassedPhase(st: DbState, st1: DbState, schema: string, kinds: seq<Kind>, env: Env)
    requires kinds != [] && StrictlyRanked(kinds)
    requires Phase(st, schema, kinds[0], env) == (st1, Pass)
    ensures PhaseStatements(schema, ObjectsOf(st.catalogs, schema), kinds[0], env).Ok?
    ensures st1.log == st.log + PhaseStatements(schema, ObjectsOf(st.catalogs, schema), kinds[0], env).value
    ensures StrictlyRanked(kinds[1..])
    ensures PlannedDrops(schema, ObjectsOf(st1.catalogs, schema), kinds[1..], env)
      == PlannedDrops(schema, ObjectsOf(st.catalogs, schema), kinds[1..], env)
  {
    var o0 := ObjectsOf(st.catalogs, schema);
    var ss := PhaseStatements(schema, o0, kinds[0], env).value;
    PhaseStatementsShape(schema, o0, kinds[0], env);
    RunPassIssuesAll(st, ss, env.rejects);
    RunOfKindSameOutside(st, ss, env.rejects, schema, kinds[0]);
    assert StrictlyRanked(kinds[1..]);
    assert kinds[0] !in kinds[1..];
    PlannedIgnoresOtherKinds(schema, o0, ObjectsOf(st1.catalogs, schema), kinds[1..], env, kinds[0]);
  }

  lemma AppendAssoc(a: seq<Stmt>, b: seq<Stmt>, c: seq<Stmt>)
    ensures a + (b + c) == (a + b) + c
  {
  }

  /** One step of CleanFromIssuesPlanned: the first phase passes and the rest is planned as before. */
  lemma PassedFirstPhase(st: DbState, schema: string, kinds: seq<Kind>, env: Env) returns (st1: DbState, ss: seq<Stmt>)
    requires kinds != [] && StrictlyRanked(kinds)
    requires CleanFrom(st, schema, kinds, env).1 == Pass
    ensures StrictlyRanked(kinds[1..])
    ensures CleanFrom(st, schema, kinds, env) == CleanFrom(st1, schema, kinds[1..], env)
    ensures st1.log == st.log + ss
    ensures PlannedDrops(schema, ObjectsOf(st.catalogs, schema), kinds, env)
      == ss + PlannedDrops(schema, ObjectsOf(st1.catalogs, schema), kinds[1..], env)
  {
    var p := Phase(st, schema, kinds[0], env);
    st1 := p.0;
    CleanFromStep(st, schema, kinds, env, st1, p.1);
    PassedPhase(st, st1, schema, kinds, env);
    ss := PhaseStatements(schema, ObjectsOf(st.catalogs, schema), kinds[0], env).value;
    PlannedStep(schema, ObjectsOf(st.catalogs, schema), kinds, env);
  }

  lemma {:induction false} CleanFromIssuesPlanned(st: DbState, schema: string, kinds: seq<Kind>, env: Env)
    requires StrictlyRanked(kinds)
    requires CleanFrom(st, schema, kinds, env).1 == Pass
    ensures CleanFrom(st, schema, kinds, env).0.log == st.log + PlannedDrops(schema, ObjectsOf(st.catalogs, schema), kinds, env)
    decreases |kinds|
  {
    if kinds == [] {
      assert st.log + [] == st.log;
    } else {
      var st1, ss := PassedFirstPhase(st, schema, kinds, env);
      CleanFromIssuesPlanned(st1, schema, kinds[1..], env);
      AppendAssoc(st.log, ss, PlannedDrops(schema, ObjectsOf(st1.catalogs, schema), kinds[1..], env));
    }
  }

  /**
    A successful doClean issues exactly the drops generated from the objects
    present when it started: each phase sees the initial objects of its kind,
    since earlier phases drop only objects of their own kinds.
  */
  lemma CleanIssuesPlannedDrops(st: DbState, schema: string, env: Env)
    requires CleanSpec(st, schema, env).1 == Pass
    ensures CleanSpec(st, schema, env).0.log == st.log + PlannedDrops(schema, ObjectsOf(st.catalogs, schema), DropOrder, env)
  {
    DropOrderRanked();
    CleanFromIssuesPlanned(st, schema, DropOrder, env);
  }

  /** Number of objects of kind `k` in `o`. */
  function CountOf(o: Objects, k: Kind): nat
  {
    if k == Procedure then |o.procedures| else |Names(o, k)|
  }

  lemma {:induction false} PlannedCount(schema: string, o: Objects, kinds: seq<Kind>, env: Env)
    requires forall t :: 0 <= t < |kinds| ==> kinds[t] !in env.failing && (kinds[t] == Procedure ==> env.procedureSqlLoaded)
    ensures |PlannedDrops(schema, o, kinds, env)| == if kinds == [] then 0 else CountOf(o, kinds[0]) + |PlannedDrops(schema, o, kinds[1..], env)|
  {
  }

  /** A successful doClean issues one statement per object of the schema, over all eight kinds. */
  lemma CleanIssuesOneStatementPerObject(st: DbState, schema: string, env: Env)
    requires CleanSpec(st, schema, env).1 == Pass
    ensures var o := ObjectsOf(st.catalogs, schema);
      |CleanSpec(st, schema, env).0.log| == |st.log|
        + |Names(o, View)| + |Names(o, Alias)| + |Names(o, Table)| + |Names(o, Sequence)|
        + |o.procedures| + |Names(o, Trigger)| + |Names(o, Function)| + |Names(o, Type)|
  {
    CleanIssuesPlannedDrops(st, schema, env);
    CleanSucceedsOnlyWhenSchemaIsEmptied(st, schema, env);
    var o := ObjectsOf(st.catalogs, schema);
    var ks := DropOrder;
    PlannedCount(schema, o, ks, env);
    PlannedCount(schema, o, ks[1..], env);
    PlannedCount(schema, o, ks[2..], env);
    PlannedCount(schema, o, ks[3..], env);
    PlannedCount(schema, o, ks[4..], env);
    PlannedCount(schema, o, ks[5..], env);
    PlannedCount(schema, o, ks[6..], env);
    PlannedCount(schema, o, ks[7..], env);
    PlannedCount(schema, o, ks[8..], env);
  }

  /** Phase `k` cannot start: its catalog query fails, or the SQL resource of the procedure query is missing. */
  predicate Blocked(k: Kind, env: Env)
  {
    k in env.failing || (k == Procedure && !env.procedureSqlLoaded)
  }

  /** Statements all ranked below `k`, followed by more such statements. */
  predicate RankedBelow(ss: seq<Stmt>, k: Kind)
  {
    forall i :: 0 <= i < |ss| ==> Rank(KindOf(ss[i])) < Rank(k)
  }

  lemma RankedBelowAppend(P: seq<Stmt>, R: seq<Stmt>, k: Kind)
    requires RankedBelow(P, k) && RankedBelow(R, k)
    ensures RankedBelow(P + R, k)
  {
    forall i | 0 <= i < |P + R|
      ensures Rank(KindOf((P + R)[i])) < Rank(k)
    {
      if i < |P| {
        assert (P + R)[i] == P[i];
      } else {
        assert (P + R)[i] == R[i - |P|];
      }
    }
  }

  lemma {:induction false} CleanFromStopsAtBlocked(st: DbState, schema: string, kinds: seq<Kind>, env: Env, k: Kind)
    requires StrictlyRanked(kinds) && k in kinds && Blocked(k, env)
    ensures var (st', o) := CleanFrom(st, schema, kinds, env);
      o.Fail? && LogExtends(st, st') && RankedBelow(Issued(st, st'), k)
    decreases |kinds|
  {
    var (st1, o) := Phase(st, schema, kinds[0], env);
    CleanFromStep(st, schema, kinds, env, st1, o);
    if kinds[0] == k {
      assert (st1, o) == (st, Fail(PhaseStatements(schema, ObjectsOf(st.catalogs, schema), k, env).error));
      assert Issued(st, st) == [];
    } else {
      var t :| 0 <= t < |kinds| && kinds[t] == k;
      assert t > 0 && Rank(kinds[0]) < Rank(k);
      PhaseIssuesItsKind(st, schema, kinds[0], env);
      assert RankedBelow(Issued(st, st1), k);
      if o.Pass? {
        assert StrictlyRanked(kinds[1..]) && kinds[1..][t - 1] == k;
        CleanFromStopsAtBlocked(st1, schema, kinds[1..], env, k);
        var st2 := CleanFrom(st1, schema, kinds[1..], env).0;
        IssuedConcat(st, st1, st2);
        RankedBelowAppend(Issued(st, st1), Issued(st1, st2), k);
      }
    }
  }

  /**
    A phase that cannot start ends doClean with an error, and no object of
    that kind or of a later kind is dropped. Without the procedure SQL
    resource in particular, only views, aliases, tables and sequences can be
    dropped.
  */
  lemma CleanStopsAtBlockedPhase(st: DbState, schema: string, env: Env, k: Kind)
    requires Blocked(k, env)
    ensures var (st', o) := CleanSpec(st, schema, env);
      o.Fail? && |st.log| <= |st'.log| && st'.log[..|st.log|] == st.log
      && forall i :: |st.log| <= i < |st'.log| ==> Rank(KindOf(st'.log[i])) < Rank(k)
  {
    DropOrderRanked();
    assert DropOrder[Rank(k)] == k;
    CleanFromStopsAtBlocked(st, schema, DropOrder, env, k);
    var st' := CleanSpec(st, schema, env).0;
    forall i | |st.log| <= i < |st'.log|
      ensures Rank(KindOf(st'.log[i])) < Rank(k)
    {
      assert st'.log[i] == Issued(st, st')[i - |st.log|];
    }
  }

  /** doEmpty looks only at tables, aliases, views (the excluded system views included), procedures and functions. */
  lemma EmptyIgnoresUncountedKinds(o0: Objects, o1: Objects)
    requires forall k :: k in {Table, Alias, View, Function} ==> Names(o0, k) == Names(o1, k)
    requires o0.procedures == o1.procedures && o0.excludedViews == o1.excludedViews
    ensures CountsSayEmpty(o0) == CountsSayEmpty(o1)
  {
    assert Table in {Table, Alias, View, Function} && Alias in {Table, Alias, View, Function};
    assert View in {Table, Alias, View, Function} && Function in {Table, Alias, View, Function};
  }

  /** A schema holding only sequences, triggers and types is reported empty. */
  lemma EmptyDespiteSequencesTriggersTypes(seqs: seq<string>, triggers: seq<string>, types: seq<string>)
    ensures CountsSayEmpty(Objects(map[Sequence := seqs, Trigger := triggers, Type := types], [], []))
  {
    var o := Objects(map[Sequence := seqs, Trigger := triggers, Type := types], [], []);
    assert Table !in o.named && Alias !in o.named && View !in o.named && Function !in o.named;
  }

  /** doCreate followed by doExists: an accepted CREATE SCHEMA makes the schema exist, empty if it was new. */
  lemma CreateThenExists(st: DbState, schema: string, catalogViews: seq<string>, rejects: set<Stmt>)
    requires Issue(st, CreateStmt(schema, catalogViews), rejects).1 == Pass
    ensures var cs := Issue(st, CreateStmt(schema, catalogViews), rejects).0.catalogs;
      schema in cs
      && (schema !in st.catalogs ==>
            AllGone(ObjectsOf(cs, schema)) && ObjectsOf(cs, schema).excludedViews == catalogViews)
      && (forall x :: x != schema ==> ObjectsOf(cs, x) == ObjectsOf(st.catalogs, x))
  {
  }

  /**
    A schema made by doCreate holds the database's catalog views, which
    doEmpty counts but no cleanup drops: even right after a successful
    doClean, doEmpty answers true only when the database adds no such views.
  */
  lemma CreatedSchemaEmptyOnlyWithoutCatalogViews(st: DbState, schema: string, catalogViews: seq<string>, env: Env)
    requires schema !in st.catalogs
    requires Issue(st, CreateStmt(schema, catalogViews), env.rejects).1 == Pass
    requires CleanSpec(Issue(st, CreateStmt(schema, catalogViews), env.rejects).0, schema, env).1 == Pass
    ensures var st1 := Issue(st, CreateStmt(schema, catalogViews), env.rejects).0;
      !CountsSayEmpty(ObjectsOf(st1.catalogs, schema)) <==> catalogViews != []
    ensures var st1 := Issue(st, CreateStmt(schema, catalogViews), env.rejects).0;
      CountsSayEmpty(ObjectsOf(CleanSpec(st1, schema, env).0.catalogs, schema)) <==> catalogViews == []
  {
    var st1 := Issue(st, CreateStmt(schema, catalogViews), env.rejects).0;
    CreateThenExists(st, schema, catalogViews, env.rejects);
    GoneCountsEmpty(ObjectsOf(st1.catalogs, schema));
    CleanThenEmpty(st1, schema, env);
  }

  lemma {:induction false} RunPassesWithoutRejects(st: DbState, ss: seq<Stmt>)
    ensures Run(st, ss, {}).1 == Pass
    decreases |ss|
  {
    if ss != [] {
      RunPassesWithoutRejects(Issue(st, ss[0], {}).0, ss[1..]);
    }
  }

  lemma {:induction false} CleanFromPassesWhenNothingFails(st: DbState, schema: string, kinds: seq<Kind>, env: Env)
    requires env.rejects == {} && env.failing == {} && env.procedureSqlLoaded
    ensures CleanFrom(st, schema, kinds, env).1 == Pass
    decreases |kinds|
  {
    if kinds != [] {
      var ss := PhaseStatements(schema, ObjectsOf(st.catalogs, schema), kinds[0], env).value;
      RunPassesWithoutRejects(st, ss);
      CleanFromPassesWhenNothingFails(Run(st, ss, {}).0, schema, kinds[1..], env);
    }
  }

  /** doClean succeeds whenever the database accepts every drop, every query answers and the SQL resource loads. */
  lemma CleanSucceedsWhenNothingFails(st: DbState, schema: string, env: Env)
    requires env.rejects == {} && env.failing == {} && env.procedureSqlLoaded
    ensures CleanSpec(st, schema, env).1 == Pass
  {
    CleanFromPassesWhenNothingFails(st, schema, DropOrder, env);
  }

  /** One name, one statement. */
  lemma SingleDrops(schema: string, k: Kind, prefix: string, name: string)
    ensures TableDrops(schema, [name]) == [DropTableStmt(schema, name)]
    ensures NamedDrops(schema, k, prefix, [name]) == [Sql(DropNamed(schema, k, name), prefix + " " + name)]
  {
  }

  lemma PlannedCons(schema: string, o: Objects, k: Kind, rest: seq<Kind>, env: Env, here: seq<Stmt>)
    requires PhaseStatements(schema, o, k, env) == Ok(here)
    ensures PlannedDrops(schema, o, [k] + rest, env) == here + PlannedDrops(schema, o, rest, env)
  {
    assert ([k] + rest)[0] == k && ([k] + rest)[1..] == rest;
  }

  lemma PhaseStatementsOfNone(schema: string, o: Objects, k: Kind, env: Env)
    requires Gone(o, k) && !Blocked(k, env)
    ensures PhaseStatements(schema, o, k, env) == Ok([])
  {
    var r := PhaseStatements(schema, o, k, env);
    assert r.Ok? && |r.value| == 0;
  }

  lemma PlannedNothingAfterSequences(schema: string, o: Objects, env: Env)
    requires o.procedures == [] && env.failing == {} && env.procedureSqlLoaded
    requires Names(o, Trigger) == [] && Names(o, Function) == [] && Names(o, Type) == []
    ensures PlannedDrops(schema, o, [Procedure, Trigger, Function, Type], env) == []
  {
    PhaseStatementsOfNone(schema, o, Procedure, env);
    PhaseStatementsOfNone(schema, o, Trigger, env);
    PhaseStatementsOfNone(schema, o, Function, env);
    PhaseStatementsOfNone(schema, o, Type, env);
    PlannedCons(schema, o, Procedure, [Trigger, Function, Type], env, []);
    PlannedCons(schema, o, Trigger, [Function, Type], env, []);
    PlannedCons(schema, o, Function, [Type], env, []);
    PlannedCons(schema, o, Type, [], env, []);
  }

  /** When only the table and sequence phases generate drops, the plan is those drops in that order. */
  lemma PlannedTableThenSequence(schema: string, o: Objects, env: Env, dropT: Stmt, dropS: Stmt)
    requires PhaseStatements(schema, o, View, env) == Ok([])
    requires PhaseStatements(schema, o, Alias, env) == Ok([])
    requires PhaseStatements(schema, o, Table, env) == Ok([dropT])
    requires PhaseStatements(schema, o, Sequence, env) == Ok([dropS])
    requires PlannedDrops(schema, o, [Procedure, Trigger, Function, Type], env) == []
    ensures PlannedDrops(schema, o, DropOrder, env) == [dropT, dropS]
  {
    var back := [Procedure, Trigger, Function, Type];
    PlannedCons(schema, o, Sequence, back, env, [dropS]);
    PlannedCons(schema, o, Table, [Sequence] + back, env, [dropT]);
    PlannedCons(schema, o, Alias, [Table, Sequence] + back, env, []);
    PlannedCons(schema, o, View, [Alias, Table, Sequence] + back, env, []);
    assert DropOrder == [View] + ([Alias] + ([Table] + ([Sequence] + back)));
  }

  /**
    When nothing fails, doClean issues its plan and succeeds; the schema is
    then reported empty unless it holds excluded system views.
  */
  lemma CleanWhenNothingFails(st: DbState, schema: string, env: Env)
    requires env.rejects == {} && env.failing == {} && env.procedureSqlLoaded
    ensures var (st', o) := CleanSpec(st, schema, env);
      o == Pass
      && st'.log == st.log + PlannedDrops(schema, ObjectsOf(st.catalogs, schema), DropOrder, env)
      && (CountsSayEmpty(ObjectsOf(st'.catalogs, schema)) <==> ObjectsOf(st.catalogs, schema).excludedViews == [])
  {
    CleanSucceedsWhenNothingFails(st, schema, env);
    CleanIssuesPlannedDrops(st, schema, env);
    CleanThenEmpty(st, schema, env);
  }

  lemma TablePhaseOfOne(schema: string, o: Objects, n: string, env: Env)
    requires Names(o, Table) == [n] && Table !in env.failing
    ensures PhaseStatements(schema, o, Table, env) == Ok([DropTableStmt(schema, n)])
  {
    SingleDrops(schema, Table, "DROP TABLE", n);
  }

  lemma SequencePhaseOfOne(schema: string, o: Objects, n: string, env: Env)
    requires Names(o, Sequence) == [n] && Sequence !in env.failing
    ensures PhaseStatements(schema, o, Sequence, env) == Ok([Sql(DropNamed(schema, Sequence, n), "DROP SEQUENCE " + n)])
  {
    SingleDrops(schema, Sequence, "DROP SEQUENCE", n);
    assert "DROP SEQUENCE" + " " == "DROP SEQUENCE ";
    assert "DROP SEQUENCE" + " " + n == "DROP SEQUENCE " + n;
  }

  lemma PlanOfTableAndSequence(schema: string, o: Objects, table: string, sequence: string, env: Env)
    requires env.failing == {} && env.procedureSqlLoaded
    requires o == Objects(map[Table := [table], Sequence := [sequence]], [], [])
    ensures PlannedDrops(schema, o, DropOrder, env)
      == [DropTableStmt(schema, table), Sql(DropNamed(schema, Sequence, sequence), "DROP SEQUENCE " + sequence)]
  {
    assert View !in o.named && Alias !in o.named && Trigger !in o.named && Function !in o.named && Type !in o.named;
    assert Names(o, Table) == [table] && Names(o, Sequence) == [sequence];
    TablePhaseOfOne(schema, o, table, env);
    SequencePhaseOfOne(schema, o, sequence, env);
    PhaseStatementsOfNone(schema, o, View, env);
    PhaseStatementsOfNone(schema, o, Alias, env);
    PlannedNothingAfterSequences(schema, o, env);
    PlannedTableThenSequence(schema, o, env, DropTableStmt(schema, table),
      Sql(DropNamed(schema, Sequence, sequence), "DROP SEQUENCE " + sequence));
  }

  /**
    A schema holding one table and one sequence and nothing else: doClean issues DROP TABLE "schema"."table" and then
    DROP SEQUENCE followed by the sequence name, nothing else, and the
    emptiness check then answers true.
  */
  lemma CleanScenarioTableAndSequence(st: DbState, schema: string, table: string, sequence: string, env: Env)
    requires env == Env({}, {}, true)
    requires st == DbState(map[schema := Objects(map[Table := [table], Sequence := [sequence]], [], [])], [])
    ensures var (st', o) := CleanSpec(st, schema, env);
      o == Pass
      && st'.log == [DropTableStmt(schema, table), Sql(DropNamed(schema, Sequence, sequence), "DROP SEQUENCE " + sequence)]
      && CountsSayEmpty(ObjectsOf(st'.catalogs, schema))
  {
    CleanWhenNothingFails(st, schema, env);
    assert ObjectsOf(st.catalogs, schema).excludedViews == [];
    PlanOfTableAndSequence(schema, ObjectsOf(st.catalogs, schema), table, sequence, env);
    assert [] + PlannedDrops(schema, ObjectsOf(st.catalogs, schema), DropOrder, env)
      == PlannedDrops(schema, ObjectsOf(st.catalogs, schema), DropOrder, env);
  }
}
