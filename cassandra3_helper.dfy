/**
 * `Cassandra3HelperImpl`: creates the database span of one CQL call,
 * names it after the statement's verb, and refuses to nest a database
 * span directly under another one.
 */
module Cassandra3Helper {
  import opened Wrappers
  import opened JavaStrings
  import opened Tracing

  /** The name given to every statement on the fast path. */
  const SelectVerb: string := "SELECT"
  /** The type of every span this helper creates. */
  const CassandraSpanType: string := "db.cassandra3.cql"
  /** The database type recorded in the span's context. */
  const CqlDbType: string := "cql"
  /** Type prefix that marks a span as a database span. */
  const DbTypePrefix: string := "db."

  /** The fast path of `getMethod`: the statement starts with exactly `SELECT` or `select`. */
  predicate IsSelectFastPath(sql: string)
  {
    StartsWith(sql, "SELECT") || StartsWith(sql, "select")
  }

  /**
   * `getMethod(sql)`: the operation verb of a statement. A null statement
   * gives null; any other gives a word holding no space and no lower-case
   * letter, never longer than the statement.
   */
  function GetMethod(sql: Option<string>): (r: Option<string>)
    ensures r.None? <==> sql.None?
    ensures r.Some? ==> ' ' !in r.value
    ensures r.Some? ==> forall i :: 0 <= i < |r.value| ==> !IsAsciiLower(r.value[i])
    ensures r.Some? ==> |r.value| <= |sql.value|
  {
    match sql
    case None => None
    case Some(s) =>
      if IsSelectFastPath(s) then Some(SelectVerb)
      else
        var t := Trim(s);
        var i := IndexOf(t, ' ');
        ToUpperHasNoLowerCase(t);
        ToUpperHasNoLowerCase(t[..if i > 0 then i else 0]);
        if i > 0 then Some(ToUpper(t[..i])) else Some(ToUpper(t))
  }

  /** The fast path answers `SELECT` without looking past the first six characters. */
  lemma {:induction false} GetMethodFastPath(tail: string)
    ensures GetMethod(Some("SELECT" + tail)) == Some(SelectVerb)
    ensures GetMethod(Some("select" + tail)) == Some(SelectVerb)
  {
    assert ("SELECT" + tail)[..6] == "SELECT";
    assert ("select" + tail)[..6] == "select";
  }

  /**
   * Off the fast path, the verb is the trimmed statement's word before its
   * first space, upper-cased: all of the trimmed statement when it has no space.
   */
  lemma {:induction false} GetMethodIsFirstWord(s: string)
    requires !IsSelectFastPath(s)
    ensures GetMethod(Some(s)) == Some(ToUpper(WordBeforeSpace(Trim(s))))
  {
    CutAtIndexOfSpace(Trim(s));
  }

  /**
   * The fast path agrees with the general rule exactly when the six letters
   * are followed by a space or by nothing: `SELECTED x` is named `SELECT`,
   * not `SELECTED`.
   */
  lemma {:induction false} FastPathAgreesWithFirstWord(tail: string)
    requires tail == [] || tail[0] == ' ' || !IsTrimmable(tail[0])
    ensures ToUpper(WordBeforeSpace(Trim("select" + tail))) == SelectVerb
            <==> tail == [] || tail[0] == ' '
  {
    var p := "select";
    assert forall i :: 0 <= i < |p| ==> !IsTrimmable(p[i]) && p[i] != ' ';
    FirstWordAfterVisiblePrefix(p, tail);
    var u := ToUpper(p);
    assert u == SelectVerb by {
      assert forall i :: 0 <= i < |p| ==> u[i] == UpperChar(p[i]);
    }
  }

  /** The fast path on statements that start with `SELECT`. */
  lemma SelectExamples()
    ensures GetMethod(Some("SELECTED x")) == Some("SELECT")
    ensures GetMethod(Some("SELECT * FROM t")) == Some("SELECT")
  {
    GetMethodFastPath("ED x");
    GetMethodFastPath(" * FROM t");
  }

  lemma TrimInsertExample()
    ensures Trim("  insert into t values (1)") == "insert into t values (1)"
  {
    var body := "insert into t values (1)";
    assert "  insert into t values (1)" == "  " + body + "";
    TrimStripsSurroundingBlanks("  ", body, "");
  }

  lemma FirstWordInsertExample()
    ensures WordBeforeSpace("insert into t values (1)") == "insert"
  {
    var w := "insert";
    assert "insert into t values (1)" == w + [' '] + "into t values (1)";
    assert forall i :: 0 <= i < |w| ==> w[i] != ' ';
    WordThenSpace(w, "into t values (1)");
  }

  lemma UpperExamples()
    ensures ToUpper("insert") == "INSERT"
    ensures ToUpper("commit") == "COMMIT"
    ensures ToUpper("COMMIT") == "COMMIT"
  {
    var u1, u2, u3 := ToUpper("insert"), ToUpper("commit"), ToUpper("COMMIT");
    assert forall i :: 0 <= i < 6 ==> u1[i] == UpperChar("insert"[i]);
    assert forall i :: 0 <= i < 6 ==> u2[i] == UpperChar("commit"[i]);
    assert forall i :: 0 <= i < 6 ==> u3[i] == UpperChar("COMMIT"[i]);
  }

  /** Leading blanks are trimmed before the first word is taken. */
  lemma InsertExample()
    ensures GetMethod(Some("  insert into t values (1)")) == Some("INSERT")
  {
    var s := "  insert into t values (1)";
    assert !IsSelectFastPath(s) by { assert s[0] != 'S' && s[0] != 's'; }
    GetMethodIsFirstWord(s);
    TrimInsertExample();
    FirstWordInsertExample();
    UpperExamples();
  }

  lemma TrimCommitExamples()
    ensures Trim("  commit  ") == "commit"
    ensures Trim("COMMIT") == "COMMIT"
  {
    assert "  commit  " == "  " + "commit" + "  ";
    TrimStripsSurroundingBlanks("  ", "commit", "  ");
    assert "COMMIT" == "" + "COMMIT" + "";
    TrimStripsSurroundingBlanks("", "COMMIT", "");
  }

  lemma SingleWordExamples()
    ensures WordBeforeSpace("commit") == "commit"
    ensures WordBeforeSpace("COMMIT") == "COMMIT"
  {
    assert forall i :: 0 <= i < 6 ==> "commit"[i] != ' ' && "COMMIT"[i] != ' ';
    WordThenSpace("commit", "");
    WordThenSpace("COMMIT", "");
  }

  /** A single word is upper-cased whole, the blanks around it trimmed. */
  lemma CommitExample()
    ensures GetMethod(Some("  commit  ")) == Some("COMMIT")
  {
    var c := "  commit  ";
    assert !IsSelectFastPath(c) by { assert c[0] != 'S' && c[0] != 's'; }
    TrimCommitExamples();
    UpperExamples();
    SingleWordExamples();
    GetMethodIsFirstWord(c);
  }

  /** A single upper-case word is its own name. */
  lemma UpperCommitExample()
    ensures GetMethod(Some("COMMIT")) == Some("COMMIT")
  {
    var k := "COMMIT";
    assert !IsSelectFastPath(k) by { assert k[0] != 'S' && k[0] != 's'; }
    TrimCommitExamples();
    UpperExamples();
    SingleWordExamples();
    GetMethodIsFirstWord(k);
  }

  /** The empty statement is named by the empty word. */
  lemma EmptyStatementExample()
    ensures GetMethod(Some("")) == Some("")
  {
  }

  lemma TabStatementTrimmed()
    ensures Trim("drop\ttable") == "drop\ttable"
  {
    assert "drop\ttable" == "" + "drop\ttable" + "";
    TrimStripsSurroundingBlanks("", "drop\ttable", "");
  }

  lemma TabStatementOneWord()
    ensures WordBeforeSpace("drop\ttable") == "drop\ttable"
  {
    var s := "drop\ttable";
    assert forall i :: 0 <= i < |s| ==> s[i] != ' ';
    WordThenSpace(s, "");
  }

  lemma TabStatementUpper()
    ensures ToUpper("drop\ttable") == "DROP\tTABLE"
  {
    var s := "drop\ttable";
    var u := ToUpper(s);
    assert forall i :: 0 <= i < |s| ==> u[i] == UpperChar(s[i]);
  }

  /** Only a space separates the verb: a tab inside the statement does not, though `trim` strips tabs at either end. */
  lemma TabIsNotASeparator()
    ensures GetMethod(Some("drop\ttable")) == Some("DROP\tTABLE")
  {
    var s := "drop\ttable";
    assert !IsSelectFastPath(s) by { assert s[0] != 'S' && s[0] != 's'; }
    TabStatementTrimmed();
    TabStatementOneWord();
    TabStatementUpper();
    GetMethodIsFirstWord(s);
  }

  /**
   * `isAlreadyMonitored(parent)`: the parent is itself a database span
   * (a `Span`, not a transaction, with a type starting with `db.`). Only
   * the parent's own fields are read, never its ancestors'.
   */
  predicate IsAlreadyMonitored(parent: AbstractSpan?)
    reads parent
  {
    parent != null && parent.isSpan && parent.spanType.Some? && StartsWith(parent.spanType.value, DbTypePrefix)
  }

  /** A transaction never suppresses, whatever its type says. */
  lemma TransactionNeverMonitored(parent: AbstractSpan)
    requires !parent.isSpan
    ensures !IsAlreadyMonitored(parent)
  {
  }

  /**
   * Suppression looks at the parent alone: two contexts of the same kind and
   * type are judged alike, whatever their ancestors are.
   */
  lemma OnlyImmediateParentInspected(p: AbstractSpan, q: AbstractSpan)
    requires p.isSpan == q.isSpan && p.spanType == q.spanType
    ensures IsAlreadyMonitored(p) == IsAlreadyMonitored(q)
  {
  }

  /** A span without a database type never suppresses, even below a database span. */
  lemma NonDatabaseSpanNotMonitored(parent: AbstractSpan)
    requires parent.spanType.None? || !StartsWith(parent.spanType.value, DbTypePrefix)
    ensures !IsAlreadyMonitored(parent)
  {
  }

  /** For example, a `custom` span whose own parent is a database span does not suppress. */
  lemma {:induction false} CustomParentExample(parent: AbstractSpan)
    requires parent.isSpan && parent.spanType == Some("custom")
    requires IsAlreadyMonitored(parent.parent)
    ensures !IsAlreadyMonitored(parent)
  {
    assert "custom"[..3][0] != DbTypePrefix[0];
  }

  /** The guard of `createCassandra3Span`: no span for a null statement, an absent or unsampled parent, or a database parent. */
  predicate Declines(cql: Option<string>, parent: AbstractSpan?)
    reads parent
  {
    cql.None? || IsAlreadyMonitored(parent) || parent == null || !parent.sampled
  }

  /** A span that carries the Cassandra type declines every nested call made while it is the parent. */
  lemma NestedCallDeclined(cql: Option<string>, span: AbstractSpan)
    requires span.isSpan && span.spanType == Some(CassandraSpanType)
    ensures Declines(cql, span)
  {
    assert CassandraSpanType[..3] == DbTypePrefix;
  }

  /**
   * What a call of `createCassandra3Span(cql, parent)` leaves behind: no
   * span and no change of the tracer when the guard declines; otherwise a
   * new active child of `parent`, named after the statement's verb, of the
   * Cassandra type, whose database context holds exactly `cql` and `cql`'s
   * dialect.
   */
  twostate predicate CreatedSpan(tracer: Tracer, cql: Option<string>, parent: AbstractSpan?, new span: AbstractSpan?)
    reads tracer, parent, span
  {
    && (span == null <==> old(Declines(cql, parent)))
    && (span == null ==> tracer.stack == old(tracer.stack) && tracer.history == old(tracer.history))
    && (span != null ==>
          && fresh(span)
          && cql.Some?
          && span.isSpan && span.parent == parent && span.sampled
          && Some(span.name) == GetMethod(cql)
          && span.spanType == Some(CassandraSpanType)
          && span.dbStatement == cql
          && span.dbType == Some(CqlDbType)
          && span.error == None && !span.ended
          && tracer.stack == old(tracer.stack) + [span]
          && tracer.history == old(tracer.history) + [Activated(span)])
  }

  /** `createCassandra3Span(cql, session, parent)`; the session is not used by the body and is left out. */
  method CreateCassandra3Span(cql: Option<string>, parent: AbstractSpan?, tracer: Tracer) returns (span: AbstractSpan?)
    modifies tracer
    ensures CreatedSpan(tracer, cql, parent, span)
    ensures span != null ==> forall c :: Declines(c, span)
  {
    if Declines(cql, parent) {
      return null;
    }
    span := new AbstractSpan.ChildOf(parent);
    tracer.Activate(span);
    span.SetName(GetMethod(cql).value);
    span.WithType(CassandraSpanType);
    span.WithDbStatement(cql.value);
    span.WithDbType(CqlDbType);
    forall c {
      NestedCallDeclined(c, span);
    }
  }

  /** Below a sampled transaction every statement gets its span, named after its verb. */
  method SpanUnderTransaction(cql: string, transaction: AbstractSpan, tracer: Tracer) returns (span: AbstractSpan?)
    requires !transaction.isSpan && transaction.sampled
    modifies tracer
    ensures span != null && span.parent == transaction && span.sampled
    ensures Some(span.name) == GetMethod(Some(cql)) && span.dbStatement == Some(cql)
    ensures tracer.stack == old(tracer.stack) + [span]
  {
    span := CreateCassandra3Span(Some(cql), transaction, tracer);
  }

  /** A fresh sampled transaction on a fresh tracer: the span is the only active context. */
  method FirstSpanOfTransaction(cql: string) returns (transaction: AbstractSpan, span: AbstractSpan?)
    ensures !transaction.isSpan && transaction.sampled
    ensures span != null && span.parent == transaction
    ensures Some(span.name) == GetMethod(Some(cql))
  {
    transaction := new AbstractSpan.Transaction(true);
    var tracer := new Tracer();
    span := SpanUnderTransaction(cql, transaction, tracer);
    assert tracer.stack == [span];
  }

  /**
   * A second creation while the first span is the active context declines:
   * one database call, one span.
   */
  method NestedCreateDeclined(cql: Option<string>, innerCql: Option<string>, parent: AbstractSpan?, tracer: Tracer)
    returns (outer: AbstractSpan?, inner: AbstractSpan?)
    modifies tracer
    ensures outer != null ==> inner == null && tracer.stack == old(tracer.stack) + [outer]
    ensures outer == null ==> inner == null && tracer.stack == old(tracer.stack)
  {
    outer := CreateCassandra3Span(cql, parent, tracer);
    inner := null;
    if outer != null {
      inner := CreateCassandra3Span(innerCql, tracer.GetActive(), tracer);
    }
  }
}
