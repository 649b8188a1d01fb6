/**
 * `SessionInstrumentation`: the side table from a driver statement object
 * to its CQL text, the enter/exit advice around `Session.execute*`, and
 * the matchers that select the intercepted classes and methods.
 */
module SessionInstrumentation {
  import opened Wrappers
  import opened JavaStrings
  import opened Tracing
  import opened Cassandra3Helper
  import opened Descriptors

  const SessionName: string := "com.datastax.driver.core.Session"
  const StatementName: string := "com.datastax.driver.core.Statement"
  const StringName: string := "java.lang.String"

  // ---------------------------------------------------------------------
  // The statement -> CQL side table
  // ---------------------------------------------------------------------

  /**
   * One consuming read of the table: the value stored under `statement`
   * when there is one, and the table that remains. A key that is absent,
   * or present with a null value, yields null and the table unchanged;
   * a found value is handed out and its key removed.
   */
  function TakeCql<K>(m: map<K, Option<string>>, statement: K): (r: (Option<string>, map<K, Option<string>>))
    ensures r.0.Some? <==> statement in m && m[statement].Some?
    ensures r.0.Some? ==> r.0 == m[statement] && r.1 == m - {statement}
    ensures r.0.None? ==> r.1 == m
  {
    var cql := if statement in m then m[statement] else None;
    if cql.Some? then (cql, m - {statement}) else (None, m)
  }

  /** A read touches no other key: every other entry is kept with its value. */
  lemma TakeKeepsOtherKeys<K>(m: map<K, Option<string>>, statement: K)
    ensures forall k :: k != statement ==> (k in TakeCql(m, statement).1 <==> k in m)
    ensures forall k :: k != statement && k in m ==> TakeCql(m, statement).1[k] == m[k]
  {
  }

  /** The read is destructive: a second read of the same statement yields null. */
  lemma SecondTakeIsNull<K>(m: map<K, Option<string>>, statement: K)
    ensures TakeCql(TakeCql(m, statement).1, statement).0 == None
  {
  }

  /** After `put(statement, cql)`, the first read yields `cql` and leaves the table without the key. */
  lemma PutThenTake<K>(m: map<K, Option<string>>, statement: K, cql: string)
    ensures TakeCql(m[statement := Some(cql)], statement) == (Some(cql), m - {statement})
  {
    assert m[statement := Some(cql)] - {statement} == m - {statement};
  }

  /** A key stored with a null value is never consumed: reads yield null and keep it. */
  lemma NullValueKept<K>(m: map<K, Option<string>>, statement: K)
    requires statement in m && m[statement].None?
    ensures TakeCql(m, statement) == (None, m)
  {
  }

  /** Once the collector has dropped a statement's entry, its CQL is gone for good. */
  lemma DroppedEntryIsNull<K>(m: map<K, Option<string>>, statement: K)
    ensures TakeCql(m - {statement}, statement) == (None, m - {statement})
  {
  }

  /**
   * `statementCqlMap` with `getCqlForStatement`. Keys are compared with
   * `equals`, as a `WeakHashMap` does. The insertion and the dropping of
   * entries belong to the map itself: nothing in the instrumentation puts.
   */
  class StatementCqlMap<K(==)> {
    var entries: map<K, Option<string>>

    constructor ()
      ensures entries == map[]
    {
      entries := map[];
    }

    /** `Map.put(statement, cql)`: an operation of the map, not of this instrumentation. */
    method Put(statement: K, cql: Option<string>)
      modifies this
      ensures entries == old(entries)[statement := cql]
    {
      entries := entries[statement := cql];
    }

    /** The collector clearing a statement object that nothing else references any more. */
    method Expunge(statement: K)
      modifies this
      ensures entries == old(entries) - {statement}
    {
      entries := entries - {statement};
    }

    /** `getCqlForStatement(statement)`: get, then remove only when a value was found. */
    method GetCqlForStatement(statement: K) returns (cql: Option<string>)
      modifies this
      ensures (cql, entries) == TakeCql(old(entries), statement)
    {
      var r := TakeCql(entries, statement);
      cql, entries := r.0, r.1;
    }
  }

  /** A put followed by two reads: the first yields the text, the second null. */
  method PutThenTakeTwice<K(==)>(table: StatementCqlMap<K>, statement: K, cql: string)
    returns (first: Option<string>, second: Option<string>)
    modifies table
    ensures first == Some(cql) && second == None
    ensures table.entries == old(table.entries) - {statement}
  {
    table.Put(statement, Some(cql));
    first := table.GetCqlForStatement(statement);
    second := table.GetCqlForStatement(statement);
  }

  // ---------------------------------------------------------------------
  // The advice around Session.execute*
  // ---------------------------------------------------------------------

  /**
   * `onBeforeExecute(session, statement)`: without a tracer or without the
   * helper nothing happens; otherwise the result is that of
   * `createCassandra3Span` on the statement's text and the active context.
   * The statement's `toString()` is given as `statementText`.
   */
  method OnBeforeExecute(tracer: Tracer?, helperInstalled: bool, statementText: string) returns (span: AbstractSpan?)
    modifies tracer
    ensures (tracer == null || !helperInstalled) ==> span == null
    ensures tracer != null && !helperInstalled ==> tracer.stack == old(tracer.stack) && tracer.history == old(tracer.history)
    ensures tracer != null && helperInstalled ==> CreatedSpan(tracer, Some(statementText), old(tracer.GetActive()), span)
  {
    if tracer != null && helperInstalled {
      var cql := statementText;
      span := CreateCassandra3Span(Some(cql), tracer.GetActive(), tracer);
      return;
    }
    return null;
  }

  /**
   * `onAfterExecute(span, t)`: nothing for a null span; otherwise the thrown
   * value is captured, the span deactivated and then ended, in that order.
   */
  method OnAfterExecute(span: AbstractSpan?, thrown: Option<Throwable>, tracer: Tracer)
    modifies tracer, span
    ensures span == null ==> tracer.stack == old(tracer.stack) && tracer.history == old(tracer.history)
    ensures span != null ==>
              && span.name == old(span.name) && span.spanType == old(span.spanType)
              && span.dbStatement == old(span.dbStatement) && span.dbType == old(span.dbType)
              && span.error == (if thrown.Some? then thrown else old(span.error))
              && span.ended
              && tracer.stack == Popped(old(tracer.stack))
              && tracer.history == old(tracer.history) + [ExceptionCaptured(span, thrown), Deactivated(span), Ended(span)]
  {
    if span != null {
      tracer.CaptureException(span, thrown);
      tracer.Deactivate(span);
      tracer.End(span);
    }
  }

  /** How the intercepted `execute*` call itself finished. */
  datatype CallOutcome = Returned | Threw(thrown: Throwable) {
    /** The value the exit advice receives as `@Advice.Thrown`: null on a normal return. */
    function ToThrown(): Option<Throwable>
    {
      if Threw? then Some(thrown) else None
    }
  }

  /**
   * An intercepted call as the weaving runs it: the enter advice, the
   * original method (its outcome given), then the exit advice, which also
   * runs when the method threw. The active context is restored either way,
   * and a span that was created is ended, carrying the thrown value if any.
   */
  method InterceptedExecute(tracer: Tracer, helperInstalled: bool, statementText: string, outcome: CallOutcome)
    returns (span: AbstractSpan?)
    modifies tracer
    ensures tracer.stack == old(tracer.stack)
    ensures span == null <==> !helperInstalled || Declines(Some(statementText), old(tracer.GetActive()))
    ensures span == null ==> tracer.history == old(tracer.history)
    ensures span != null ==>
              && fresh(span) && span.ended && span.parent == old(tracer.GetActive())
              && span.dbStatement == Some(statementText)
              && span.error == (if outcome.Threw? then Some(outcome.thrown) else None)
              && tracer.history == old(tracer.history) + [Activated(span), ExceptionCaptured(span, outcome.ToThrown()), Deactivated(span), Ended(span)]
  {
    span := OnBeforeExecute(tracer, helperInstalled, statementText);
    OnAfterExecute(span, outcome.ToThrown(), tracer);
  }

  // ---------------------------------------------------------------------
  // Matchers
  // ---------------------------------------------------------------------

  /** `getTypeMatcher()`: classes (not interfaces) with `Session` in their name that implement the driver's `Session`. */
  predicate TypeMatcher(t: TypeDescription)
  {
    !t.isInterface && NameContains(t, "Session") && HasSuperType(t, SessionName)
  }

  /**
   * `getMethodMatcher()`: public `execute*` methods returning a `Statement`
   * whose first parameter is a `String`.
   */
  predicate MethodMatcher(m: MethodDescription)
  {
    NameStartsWith(m, "execute") && m.isPublic && ReturnsSubtypeOf(m, StatementName) && TakesArgument(m, 0, StringName)
  }

  /** The driver's `Session` interface itself is not instrumented, only its implementations. */
  lemma SessionInterfaceNotMatched(t: TypeDescription)
    requires t.name == SessionName && t.isInterface
    ensures !TypeMatcher(t)
  {
  }

  /**
   * The name pre-filter loses implementations: a class implementing
   * `Session` whose name lacks `Session` is not instrumented.
   */
  lemma SessionPreFilterFalseNegative(t: TypeDescription)
    requires SessionName in t.superTypes && !Contains(t.name, "Session")
    ensures !TypeMatcher(t)
  {
  }

  /** The name filter is case-sensitive: `com.example.Cqlsession` is not instrumented, whatever it implements. */
  lemma {:induction false} SessionNameCaseSensitive(t: TypeDescription)
    requires t.name == "com.example.Cqlsession"
    ensures !TypeMatcher(t)
  {
    var n := t.name;
    assert 'S' !in n;
    forall i | 0 <= i <= |n|
      ensures !OccursAt(n, "Session", i)
    {
      if i + 7 <= |n| {
        assert n[i] in n;
        assert n[i + 0] != "Session"[0];
      }
    }
  }

  /** An implementation of `Session` named like one is instrumented. */
  lemma {:induction false} SessionManagerMatched(t: TypeDescription)
    requires t.name == "com.datastax.driver.core.SessionManager" && !t.isInterface && SessionName in t.superTypes
    ensures TypeMatcher(t)
  {
    assert OccursAt(t.name, "Session", 25);
  }

  /**
   * The matcher and the advice disagree on argument 0: every matched method
   * takes a `String` first, never the `Statement` the enter advice binds.
   */
  lemma MatchedFirstArgumentIsNotStatement(m: MethodDescription)
    requires MethodMatcher(m)
    ensures |m.parameterTypes| > 0 && m.parameterTypes[0] == StringName
    ensures !TakesArgument(m, 0, StatementName)
  {
  }

  /** Each of the four conditions is needed: dropping any one rejects the method. */
  lemma {:induction false} MethodConditionsNeeded(m: MethodDescription)
    requires MethodMatcher(m)
    ensures !MethodMatcher(m.(isPublic := false))
    ensures !MethodMatcher(m.(name := "Execute"))
    ensures !MethodMatcher(m.(parameterTypes := []))
    ensures !MethodMatcher(m.(returnType := TypeDescription("void", false, {})))
  {
    assert "Execute"[0] != "execute"[0];
  }
}
