# Cassandra 3 and servlet instrumentation: a Dafny model

This project models three small pieces of an APM agent's instrumentation plugins:

- **Span creation and naming** (`Cassandra3HelperImpl`). `createCassandra3Span` refuses to trace when there is no CQL text, no parent, an unsampled parent, or a parent that is already a database span. Otherwise it creates a child span, activates it and fills it in: the name, the type `db.cassandra3.cql`, the statement and the database type `cql`. `getMethod` derives the span name from the statement. `isAlreadyMonitored` is the one-level duplicate-suppression rule.
- **The statement → CQL side table and the advice pair** (`SessionInstrumentation`). `statementCqlMap` is a map. `getCqlForStatement` reads it destructively: it gets the value and removes the key only when a value was found. `onBeforeExecute` and `onAfterExecute` are the enter and exit advice around `Session.execute*`.
- **The structural target matchers** (`getTypeMatcher` and `getMethodMatcher` of `SessionInstrumentation` and of `ServletInstrumentation`). They are modelled as pure predicates over a small descriptor of a type and of a method.

Modules:

- wrappers.dfy (`Wrappers`): `Option`, standing for Java's nullable references
- java_strings.dfy (`JavaStrings`): `startsWith`, `contains`, `contains` ignoring case, `trim`, `indexOf`, ASCII `toUpperCase`/`toLowerCase`. Three have a reference specification and lemmas connecting the two: `trim` (`TrimBounds` models its two loops, its contract is the reference, and `TrimStripsSurroundingBlanks` pins the result), the cut at `indexOf(' ')` (`WordBeforeSpace`, `CutAtIndexOfSpace`) and case-blind `contains` (`ContainsIgnoringCase`, `LowerCaseContains`). `startsWith` and `contains` are plain definitions. `toUpperCase` and `toLowerCase` are specified character by character by their contracts
- tracing.dfy (`Tracing`): ASSUMED minimal state of the tracer and its spans (see below)
- cassandra3_helper.dfy (`Cassandra3Helper`): `getMethod`, `isAlreadyMonitored`, `createCassandra3Span`
- descriptors.dfy (`Descriptors`): type and method descriptors, and the element matchers used (`hasSuperType`, `nameContains`, `takesArgument`, …)
- session_instrumentation.dfy (`SessionInstrumentation`): the side table, the enter/exit advice, an intercepted call, and the Session matchers
- servlet_instrumentation.dfy (`ServletInstrumentation`): the servlet matchers

**Assumed state.** `Span`, `AbstractSpan` and the tracer are not part of this model. The `Tracing` module gives the least state the core needs, and that state is an assumption:
- A span record (class `AbstractSpan`) has a name, a type, a database statement, a database type, a sampled flag, an error and an ended flag. `isSpan` tells a `Span` from a `Transaction`.
- The tracer (class `Tracer`) holds a stack of active contexts. `Activate` pushes and `Deactivate` pops.
- `CaptureException` records a thrown value on the span when there is one.
- A ghost `history` lists the lifecycle steps taken, so the order of capture, deactivate and end can be stated.

**Behaviour of the code worth knowing:**
- The fast path of `getMethod` tests exactly `SELECT` or `select`, not any letter case. `Select x` takes the general path, which also yields `SELECT`.
- The general path cuts at the first space (`indexOf(' ')`), not at the first whitespace character. `drop\ttable` is named `DROP\tTABLE` (`TabIsNotASeparator`), although `trim` strips tabs at both ends.
- The fast path changes the result, not only the cost: `SELECTED x` is named `SELECT`, where the general rule would give `SELECTED` (`FastPathAgreesWithFirstWord`).
- The side table is a `WeakHashMap`: keys compare with `equals`, not by identity. Its values may be null. A key stored with a null value yields null and is not removed (`NullValueKept`).
- The Session method matcher requires argument 0 to be a `String`. The enter advice binds argument 0 as a `Statement`. The model keeps both as written, and `MatchedFirstArgumentIsNotStatement` shows that no matched method takes a `Statement` first.
- `onAfterExecute` calls `captureException(t)` even when `t` is null. The model records nothing for a null `t`.

## Model

Paths are relative to the repository root.

| member | source | states |
|---|---|---|
| JavaStrings.StartsWith | apm-agent-plugins/apm-cassandra-datastax-3.0.0-plugin/src/main/java/co/elastic/apm/cassandra3/helper/Cassandra3HelperImpl.java:64 | Definition of `String.startsWith` (also used at line 88): the prefix is no longer than the string and equals its first characters |
| JavaStrings.TrimBounds | apm-agent-plugins/apm-cassandra-datastax-3.0.0-plugin/src/main/java/co/elastic/apm/cassandra3/helper/Cassandra3HelperImpl.java:67 | The part `trim` keeps is bounded so that everything outside is a character ≤ U+0020; when the kept part is not empty, it starts and ends with a character above U+0020; an all-blank string keeps nothing |
| JavaStrings.Trim | apm-agent-plugins/apm-cassandra-datastax-3.0.0-plugin/src/main/java/co/elastic/apm/cassandra3/helper/Cassandra3HelperImpl.java:67 | A trimmed string is no longer than its input; when not empty, its first and last characters are above U+0020; it is empty exactly when every input character is ≤ U+0020 |
| JavaStrings.TrimIdempotent | apm-agent-plugins/apm-cassandra-datastax-3.0.0-plugin/src/main/java/co/elastic/apm/cassandra3/helper/Cassandra3HelperImpl.java:67 | Trimming a trimmed string changes nothing |
| JavaStrings.TrimStripsSurroundingBlanks | apm-agent-plugins/apm-cassandra-datastax-3.0.0-plugin/src/main/java/co/elastic/apm/cassandra3/helper/Cassandra3HelperImpl.java:67 | Blanks (characters ≤ U+0020) before and after a word that starts and ends with a visible character are exactly what `trim` removes |
| JavaStrings.FirstWordAfterVisiblePrefix | apm-agent-plugins/apm-cassandra-datastax-3.0.0-plugin/src/main/java/co/elastic/apm/cassandra3/helper/Cassandra3HelperImpl.java:67-70 | After `trim`, a visible, space-free prefix is the whole first word exactly when nothing or a space follows it; a visible character after it lengthens the word |
| JavaStrings.IndexOf | apm-agent-plugins/apm-cassandra-datastax-3.0.0-plugin/src/main/java/co/elastic/apm/cassandra3/helper/Cassandra3HelperImpl.java:68 | `indexOf(c)` is -1 exactly when `c` does not occur; otherwise it is an index holding `c` with no `c` before it |
| JavaStrings.WordBeforeSpace | apm-agent-plugins/apm-cassandra-datastax-3.0.0-plugin/src/main/java/co/elastic/apm/cassandra3/helper/Cassandra3HelperImpl.java:68-74 | Reference for the verb: a prefix of its input holding no space, followed by a space or by the end of the input |
| JavaStrings.CutAtIndexOfSpace | apm-agent-plugins/apm-cassandra-datastax-3.0.0-plugin/src/main/java/co/elastic/apm/cassandra3/helper/Cassandra3HelperImpl.java:68-70 | The substring before `indexOf(' ')`, or the whole string when there is no space, is the word before the first space |
| JavaStrings.ToUpper | apm-agent-plugins/apm-cassandra-datastax-3.0.0-plugin/src/main/java/co/elastic/apm/cassandra3/helper/Cassandra3HelperImpl.java:70-73 | `toUpperCase` keeps the length and maps every character on its own |
| JavaStrings.ToUpperHasNoLowerCase | apm-agent-plugins/apm-cassandra-datastax-3.0.0-plugin/src/main/java/co/elastic/apm/cassandra3/helper/Cassandra3HelperImpl.java:70-73 | An upper-cased string holds no lower-case ASCII letter, and holds a space exactly when its input does |
| JavaStrings.LowerCaseContains | apm-agent-plugins/apm-servlet-plugin/src/main/java/co/elastic/apm/servlet/ServletInstrumentation.java:63 | `nameContainsIgnoreCase`, read as lower-casing both sides and then calling `contains`, holds exactly when the infix occurs with letter case disregarded |
| Cassandra3Helper.GetMethod | apm-agent-plugins/apm-cassandra-datastax-3.0.0-plugin/src/main/java/co/elastic/apm/cassandra3/helper/Cassandra3HelperImpl.java:58-75 | `getMethod` returns null exactly for a null statement; any other result holds no space and no lower-case letter, and is no longer than the statement |
| Cassandra3Helper.IsSelectFastPath | apm-agent-plugins/apm-cassandra-datastax-3.0.0-plugin/src/main/java/co/elastic/apm/cassandra3/helper/Cassandra3HelperImpl.java:64 | Definition of line 64: the statement starts with exactly `SELECT` or with exactly `select`. Proved about it: `GetMethodFastPath`, `FastPathAgreesWithFirstWord` |
| Cassandra3Helper.GetMethodFastPath | apm-agent-plugins/apm-cassandra-datastax-3.0.0-plugin/src/main/java/co/elastic/apm/cassandra3/helper/Cassandra3HelperImpl.java:64-66 | Any statement starting with exactly `SELECT` or `select` is named `SELECT`, whatever follows, with no trimming |
| Cassandra3Helper.GetMethodIsFirstWord | apm-agent-plugins/apm-cassandra-datastax-3.0.0-plugin/src/main/java/co/elastic/apm/cassandra3/helper/Cassandra3HelperImpl.java:67-74 | Off the fast path, the name is the trimmed statement's word before its first space, upper-cased (all of the trimmed statement when it has no space) |
| Cassandra3Helper.FastPathAgreesWithFirstWord | apm-agent-plugins/apm-cassandra-datastax-3.0.0-plugin/src/main/java/co/elastic/apm/cassandra3/helper/Cassandra3HelperImpl.java:63-74 | For `select` followed by nothing, a space or a character above U+0020, the general rule gives `SELECT` exactly when the next character is a space or there is none; the fast path is not a pure optimisation |
| Cassandra3Helper.SelectExamples | apm-agent-plugins/apm-cassandra-datastax-3.0.0-plugin/src/main/java/co/elastic/apm/cassandra3/helper/Cassandra3HelperImpl.java:64-66 | `SELECT * FROM t` and `SELECTED x` are both named `SELECT` |
| Cassandra3Helper.InsertExample | apm-agent-plugins/apm-cassandra-datastax-3.0.0-plugin/src/main/java/co/elastic/apm/cassandra3/helper/Cassandra3HelperImpl.java:67-70 | `  insert into t values (1)` is named `INSERT` |
| Cassandra3Helper.CommitExample | apm-agent-plugins/apm-cassandra-datastax-3.0.0-plugin/src/main/java/co/elastic/apm/cassandra3/helper/Cassandra3HelperImpl.java:67-73 | `  commit  ` is named `COMMIT` |
| Cassandra3Helper.UpperCommitExample | apm-agent-plugins/apm-cassandra-datastax-3.0.0-plugin/src/main/java/co/elastic/apm/cassandra3/helper/Cassandra3HelperImpl.java:71-73 | `COMMIT` is named `COMMIT` |
| Cassandra3Helper.EmptyStatementExample | apm-agent-plugins/apm-cassandra-datastax-3.0.0-plugin/src/main/java/co/elastic/apm/cassandra3/helper/Cassandra3HelperImpl.java:67-73 | The empty statement is named by the empty string, not null |
| Cassandra3Helper.TabIsNotASeparator | apm-agent-plugins/apm-cassandra-datastax-3.0.0-plugin/src/main/java/co/elastic/apm/cassandra3/helper/Cassandra3HelperImpl.java:68 | A tab does not end the verb: `drop\ttable` is named `DROP\tTABLE` |
| Cassandra3Helper.TransactionNeverMonitored | apm-agent-plugins/apm-cassandra-datastax-3.0.0-plugin/src/main/java/co/elastic/apm/cassandra3/helper/Cassandra3HelperImpl.java:81-84 | A parent that is not a `Span` (a transaction) never suppresses |
| Cassandra3Helper.IsAlreadyMonitored | apm-agent-plugins/apm-cassandra-datastax-3.0.0-plugin/src/main/java/co/elastic/apm/cassandra3/helper/Cassandra3HelperImpl.java:81-89 | Definition of lines 82-88: the parent is a `Span` (not null, not a transaction) whose type is present and starts with `db.`. Proved about it: `TransactionNeverMonitored`, `OnlyImmediateParentInspected`, `NonDatabaseSpanNotMonitored`, `CustomParentExample`, `NestedCallDeclined` |
| Cassandra3Helper.OnlyImmediateParentInspected | apm-agent-plugins/apm-cassandra-datastax-3.0.0-plugin/src/main/java/co/elastic/apm/cassandra3/helper/Cassandra3HelperImpl.java:81-89 | Only the immediate parent is inspected: any two contexts of the same kind and type are judged alike, whatever their own ancestors are |
| Cassandra3Helper.NonDatabaseSpanNotMonitored | apm-agent-plugins/apm-cassandra-datastax-3.0.0-plugin/src/main/java/co/elastic/apm/cassandra3/helper/Cassandra3HelperImpl.java:85-88 | A parent with no type, or with a type not starting with `db.`, never suppresses, even when its own parent is a database span |
| Cassandra3Helper.CustomParentExample | apm-agent-plugins/apm-cassandra-datastax-3.0.0-plugin/src/main/java/co/elastic/apm/cassandra3/helper/Cassandra3HelperImpl.java:85-88 | A `custom` span whose own parent is a database span does not suppress |
| Cassandra3Helper.Declines | apm-agent-plugins/apm-cassandra-datastax-3.0.0-plugin/src/main/java/co/elastic/apm/cassandra3/helper/Cassandra3HelperImpl.java:41 | Definition of line 41: the CQL is null, or the parent is already monitored, absent or unsampled. Proved about it: `NestedCallDeclined`, `SpanUnderTransaction`; `CreateCassandra3Span` returns null exactly when it holds |
| Cassandra3Helper.NestedCallDeclined | apm-agent-plugins/apm-cassandra-datastax-3.0.0-plugin/src/main/java/co/elastic/apm/cassandra3/helper/Cassandra3HelperImpl.java:41-50 | A span of type `db.cassandra3.cql` makes the guard decline every call made with it as parent |
| Cassandra3Helper.CreateCassandra3Span | apm-agent-plugins/apm-cassandra-datastax-3.0.0-plugin/src/main/java/co/elastic/apm/cassandra3/helper/Cassandra3HelperImpl.java:40-56 | Returns null and leaves the tracer untouched when the CQL is null, the parent is null or unsampled, or the parent is a database span. Otherwise it returns a fresh, active, sampled child of the parent, pushed on the context stack, named `getMethod(cql)`, of type `db.cassandra3.cql`, with database statement exactly `cql` and database type `cql`. A nested call with it as parent then declines |
| Cassandra3Helper.SpanUnderTransaction | apm-agent-plugins/apm-cassandra-datastax-3.0.0-plugin/src/main/java/co/elastic/apm/cassandra3/helper/Cassandra3HelperImpl.java:40-56 | For any sampled root transaction and any tracer, every statement gets a span: a sampled child of the transaction, named `getMethod(cql)`, holding the statement, pushed on the tracer's stack |
| Cassandra3Helper.FirstSpanOfTransaction | apm-agent-plugins/apm-cassandra-datastax-3.0.0-plugin/src/main/java/co/elastic/apm/cassandra3/helper/Cassandra3HelperImpl.java:40-56 | A new sampled transaction (`Tracing.AbstractSpan.Transaction`) on a new tracer yields a child span named `getMethod(cql)` |
| Cassandra3Helper.NestedCreateDeclined | apm-agent-plugins/apm-cassandra-datastax-3.0.0-plugin/src/main/java/co/elastic/apm/cassandra3/helper/Cassandra3HelperImpl.java:41-50 | A second creation, made while the first span is active, returns null; the stack then holds exactly one new span |
| Tracing.AbstractSpan.ChildOf | apm-agent-plugins/apm-cassandra-datastax-3.0.0-plugin/src/main/java/co/elastic/apm/cassandra3/helper/Cassandra3HelperImpl.java:44 | (assumed) `createSpan()` makes an empty span whose parent is the creator and which inherits its sampling decision |
| Tracing.AbstractSpan.Transaction | apm-agent-plugins/apm-cassandra-datastax-3.0.0-plugin/src/main/java/co/elastic/apm/cassandra3/helper/Cassandra3HelperImpl.java:82 | (assumed) A root transaction: not a `Span`, no parent, with the given sampling decision and no name, type or database context |
| Tracing.AbstractSpan.SetName | apm-agent-plugins/apm-cassandra-datastax-3.0.0-plugin/src/main/java/co/elastic/apm/cassandra3/helper/Cassandra3HelperImpl.java:45 | (assumed) `setName(n)` sets the name to `n` and no other field |
| Tracing.AbstractSpan.WithType | apm-agent-plugins/apm-cassandra-datastax-3.0.0-plugin/src/main/java/co/elastic/apm/cassandra3/helper/Cassandra3HelperImpl.java:50 | (assumed) `withType(t)` sets the span type to `t` and no other field |
| Tracing.AbstractSpan.WithDbStatement | apm-agent-plugins/apm-cassandra-datastax-3.0.0-plugin/src/main/java/co/elastic/apm/cassandra3/helper/Cassandra3HelperImpl.java:51-52 | (assumed) `getContext().getDb().withStatement(s)` sets the database statement to `s` and no other field |
| Tracing.AbstractSpan.WithDbType | apm-agent-plugins/apm-cassandra-datastax-3.0.0-plugin/src/main/java/co/elastic/apm/cassandra3/helper/Cassandra3HelperImpl.java:51-53 | (assumed) `getContext().getDb().withType(t)` sets the database type to `t` and no other field |
| Tracing.Tracer.Activate | apm-agent-plugins/apm-cassandra-datastax-3.0.0-plugin/src/main/java/co/elastic/apm/cassandra3/helper/Cassandra3HelperImpl.java:44 | (assumed) `activate()` pushes the span on the active-context stack |
| Tracing.Tracer.GetActive | apm-agent-plugins/apm-cassandra-datastax-3.0.0-plugin/src/main/java/co/elastic/apm/cassandra3/SessionInstrumentation.java:63 | (assumed) `getActive()` is null exactly when no context is active, and otherwise the most recently activated context still on the stack |
| Tracing.Tracer.CaptureException | apm-agent-plugins/apm-cassandra-datastax-3.0.0-plugin/src/main/java/co/elastic/apm/cassandra3/SessionInstrumentation.java:72 | (assumed) `captureException(t)` records a non-null `t` on the span and leaves the stack alone |
| Tracing.Tracer.Deactivate | apm-agent-plugins/apm-cassandra-datastax-3.0.0-plugin/src/main/java/co/elastic/apm/cassandra3/SessionInstrumentation.java:73 | (assumed) `deactivate()` pops the active-context stack |
| Tracing.Tracer.End | apm-agent-plugins/apm-cassandra-datastax-3.0.0-plugin/src/main/java/co/elastic/apm/cassandra3/SessionInstrumentation.java:74 | (assumed) `end()` marks the span ended and leaves the stack alone |
| Descriptors.HasSuperType | apm-agent-plugins/apm-cassandra-datastax-3.0.0-plugin/src/main/java/co/elastic/apm/cassandra3/SessionInstrumentation.java:107 | Stands for the library's `hasSuperType(named(n))` (also ServletInstrumentation.java:64 and the return-type test at line 114). Modelling decision: a type counts as its own supertype; its supertypes are a resolved set |
| Descriptors.NameContains | apm-agent-plugins/apm-cassandra-datastax-3.0.0-plugin/src/main/java/co/elastic/apm/cassandra3/SessionInstrumentation.java:106 | Stands for `nameContains(infix)` (also ServletInstrumentation.java:63): `Contains` on the fully-qualified name, case-sensitive |
| Descriptors.NameContainsIgnoreCase | apm-agent-plugins/apm-servlet-plugin/src/main/java/co/elastic/apm/servlet/ServletInstrumentation.java:63 | Stands for `nameContainsIgnoreCase(infix)`: the lower-cased name contains the lower-cased infix; `LowerCaseContains` proves this is a case-blind search |
| Descriptors.NameStartsWith | apm-agent-plugins/apm-cassandra-datastax-3.0.0-plugin/src/main/java/co/elastic/apm/cassandra3/SessionInstrumentation.java:112 | Stands for `nameStartsWith(prefix)` on the method name, case-sensitive |
| Descriptors.Named | apm-agent-plugins/apm-servlet-plugin/src/main/java/co/elastic/apm/servlet/ServletInstrumentation.java:69 | Stands for `named(n)` on the method name: exact equality |
| Descriptors.TakesArgument | apm-agent-plugins/apm-cassandra-datastax-3.0.0-plugin/src/main/java/co/elastic/apm/cassandra3/SessionInstrumentation.java:115 | Stands for `takesArgument(i, type)` (also ServletInstrumentation.java:70-71). Modelling decision: an index past the last parameter does not match; types compare by erased name |
| Descriptors.ReturnsSubtypeOf | apm-agent-plugins/apm-cassandra-datastax-3.0.0-plugin/src/main/java/co/elastic/apm/cassandra3/SessionInstrumentation.java:114 | Stands for `returns(hasSuperType(named(n)))`: `HasSuperType` of the return type |
| SessionInstrumentation.TakeCql | apm-agent-plugins/apm-cassandra-datastax-3.0.0-plugin/src/main/java/co/elastic/apm/cassandra3/SessionInstrumentation.java:94-99 | A read yields a value exactly when the key is present with a non-null value. Then it yields that value, and the table loses that key and nothing else. Otherwise it yields null and the table is unchanged |
| SessionInstrumentation.TakeKeepsOtherKeys | apm-agent-plugins/apm-cassandra-datastax-3.0.0-plugin/src/main/java/co/elastic/apm/cassandra3/SessionInstrumentation.java:94-99 | Every key other than the one read stays present with its value, and no key appears |
| SessionInstrumentation.SecondTakeIsNull | apm-agent-plugins/apm-cassandra-datastax-3.0.0-plugin/src/main/java/co/elastic/apm/cassandra3/SessionInstrumentation.java:94-99 | Two consecutive reads of the same key: the second yields null |
| SessionInstrumentation.PutThenTake | apm-agent-plugins/apm-cassandra-datastax-3.0.0-plugin/src/main/java/co/elastic/apm/cassandra3/SessionInstrumentation.java:94-99 | After `put(k, v)` the first read yields `v` and removes `k` |
| SessionInstrumentation.NullValueKept | apm-agent-plugins/apm-cassandra-datastax-3.0.0-plugin/src/main/java/co/elastic/apm/cassandra3/SessionInstrumentation.java:95-97 | A key stored with a null value yields null and is not removed |
| SessionInstrumentation.DroppedEntryIsNull | apm-agent-plugins/apm-cassandra-datastax-3.0.0-plugin/src/main/java/co/elastic/apm/cassandra3/SessionInstrumentation.java:51 | Once an entry is dropped (the statement object was collected), reading it yields null |
| SessionInstrumentation.StatementCqlMap.GetCqlForStatement | apm-agent-plugins/apm-cassandra-datastax-3.0.0-plugin/src/main/java/co/elastic/apm/cassandra3/SessionInstrumentation.java:94-100 | `getCqlForStatement` returns what `TakeCql` yields, and the table becomes what `TakeCql` leaves |
| SessionInstrumentation.StatementCqlMap.Put | apm-agent-plugins/apm-cassandra-datastax-3.0.0-plugin/src/main/java/co/elastic/apm/cassandra3/SessionInstrumentation.java:51 | The map's own `put` stores the value under the key, replacing any previous value |
| SessionInstrumentation.StatementCqlMap.Expunge | apm-agent-plugins/apm-cassandra-datastax-3.0.0-plugin/src/main/java/co/elastic/apm/cassandra3/SessionInstrumentation.java:51 | The weak map dropping a collected key removes that entry only |
| SessionInstrumentation.PutThenTakeTwice | apm-agent-plugins/apm-cassandra-datastax-3.0.0-plugin/src/main/java/co/elastic/apm/cassandra3/SessionInstrumentation.java:94-99 | On the object, a put followed by two reads yields the text and then null, and leaves the table without the key |
| SessionInstrumentation.OnBeforeExecute | apm-agent-plugins/apm-cassandra-datastax-3.0.0-plugin/src/main/java/co/elastic/apm/cassandra3/SessionInstrumentation.java:57-66 | Without a tracer or a helper it returns null and changes nothing. Otherwise its result and effect are exactly those of `createCassandra3Span` on the statement's text and the tracer's active context |
| SessionInstrumentation.OnAfterExecute | apm-agent-plugins/apm-cassandra-datastax-3.0.0-plugin/src/main/java/co/elastic/apm/cassandra3/SessionInstrumentation.java:68-76 | A null span changes nothing. Otherwise the thrown value is captured, the span is deactivated and then ended, in that order; its naming fields are untouched |
| SessionInstrumentation.InterceptedExecute | apm-agent-plugins/apm-cassandra-datastax-3.0.0-plugin/src/main/java/co/elastic/apm/cassandra3/SessionInstrumentation.java:69-75 | Whether the call returned or threw, the active-context stack ends as it started. A span is created exactly when the helper is installed and the guard does not decline. A created span is ended, holds the statement, and carries the thrown value only when the call threw |
| SessionInstrumentation.TypeMatcher | apm-agent-plugins/apm-cassandra-datastax-3.0.0-plugin/src/main/java/co/elastic/apm/cassandra3/SessionInstrumentation.java:103-108 | Definition of lines 104-107: not an interface, `Session` in the name, and `com.datastax.driver.core.Session` as the type itself or a supertype. Proved about it: `SessionPreFilterFalseNegative`, `SessionInterfaceNotMatched`, `SessionNameCaseSensitive`, `SessionManagerMatched` |
| SessionInstrumentation.MethodMatcher | apm-agent-plugins/apm-cassandra-datastax-3.0.0-plugin/src/main/java/co/elastic/apm/cassandra3/SessionInstrumentation.java:111-116 | Definition of lines 112-115: the name starts with `execute`, the method is public, the return type is or extends `com.datastax.driver.core.Statement`, and parameter 0 is `java.lang.String`. Proved about it: `MatchedFirstArgumentIsNotStatement`, `MethodConditionsNeeded` |
| SessionInstrumentation.SessionPreFilterFalseNegative | apm-agent-plugins/apm-cassandra-datastax-3.0.0-plugin/src/main/java/co/elastic/apm/cassandra3/SessionInstrumentation.java:106-107 | Every implementation of `Session` whose name lacks `Session` is rejected: the pre-filter loses it |
| SessionInstrumentation.SessionInterfaceNotMatched | apm-agent-plugins/apm-cassandra-datastax-3.0.0-plugin/src/main/java/co/elastic/apm/cassandra3/SessionInstrumentation.java:104 | The driver's `Session` interface itself is never instrumented |
| SessionInstrumentation.SessionNameCaseSensitive | apm-agent-plugins/apm-cassandra-datastax-3.0.0-plugin/src/main/java/co/elastic/apm/cassandra3/SessionInstrumentation.java:106 | The `Session` name filter is case-sensitive: `com.example.Cqlsession` is rejected whatever it implements |
| SessionInstrumentation.SessionManagerMatched | apm-agent-plugins/apm-cassandra-datastax-3.0.0-plugin/src/main/java/co/elastic/apm/cassandra3/SessionInstrumentation.java:103-107 | A non-interface class named with `Session` that implements `com.datastax.driver.core.Session` is instrumented |
| SessionInstrumentation.MatchedFirstArgumentIsNotStatement | apm-agent-plugins/apm-cassandra-datastax-3.0.0-plugin/src/main/java/co/elastic/apm/cassandra3/SessionInstrumentation.java:111-115 | Every matched method has a first parameter, and it is `java.lang.String`, never the `Statement` the enter advice binds (line 60) |
| SessionInstrumentation.MethodConditionsNeeded | apm-agent-plugins/apm-cassandra-datastax-3.0.0-plugin/src/main/java/co/elastic/apm/cassandra3/SessionInstrumentation.java:111-115 | A matched method stops matching when it is made non-public, renamed `Execute`, stripped of its parameters, or given the return type `void` |
| ServletInstrumentation.TypeMatcher | apm-agent-plugins/apm-servlet-plugin/src/main/java/co/elastic/apm/servlet/ServletInstrumentation.java:58-65 | A type is instrumented exactly when it is not an interface, its name contains `Servlet` or any-case `jsp`, and it is or extends `javax.servlet.http.HttpServlet` |
| ServletInstrumentation.MethodMatcher | apm-agent-plugins/apm-servlet-plugin/src/main/java/co/elastic/apm/servlet/ServletInstrumentation.java:68-72 | Definition of lines 69-71: named `service`, parameter 0 `HttpServletRequest`, parameter 1 `HttpServletResponse`. Proved about it: `OnlyServiceMatched`, `ExactServiceName`, `VisibilityIgnored`, `ParameterCount` |
| ServletInstrumentation.NamePreFilter | apm-agent-plugins/apm-servlet-plugin/src/main/java/co/elastic/apm/servlet/ServletInstrumentation.java:63 | The name filter passes exactly when the name contains `Servlet` (case-sensitive) or `jsp` in any letter case |
| ServletInstrumentation.InterfaceNeverMatched | apm-agent-plugins/apm-servlet-plugin/src/main/java/co/elastic/apm/servlet/ServletInstrumentation.java:59 | Interfaces are never matched |
| ServletInstrumentation.NameAloneNotEnough | apm-agent-plugins/apm-servlet-plugin/src/main/java/co/elastic/apm/servlet/ServletInstrumentation.java:63-64 | A class named with `Servlet` that does not extend `HttpServlet` passes the name filter but is rejected |
| ServletInstrumentation.PreFilterFalseNegative | apm-agent-plugins/apm-servlet-plugin/src/main/java/co/elastic/apm/servlet/ServletInstrumentation.java:60-64 | An `HttpServlet` subclass with neither `Servlet` nor an any-case `jsp` in its name is rejected |
| ServletInstrumentation.CompiledJspMatched | apm-agent-plugins/apm-servlet-plugin/src/main/java/co/elastic/apm/servlet/ServletInstrumentation.java:58-64 | A compiled page `org.apache.jsp.index_jsp` that extends `HttpServlet` is matched |
| ServletInstrumentation.VisibilityIgnored | apm-agent-plugins/apm-servlet-plugin/src/main/java/co/elastic/apm/servlet/ServletInstrumentation.java:68-72 | The method matcher imposes no visibility condition: flipping `isPublic` never changes its verdict |
| ServletInstrumentation.ParameterCount | apm-agent-plugins/apm-servlet-plugin/src/main/java/co/elastic/apm/servlet/ServletInstrumentation.java:70-71 | A method with fewer than two parameters is never matched, and extra parameters after the second do not stop a match |
| ServletInstrumentation.OnlyServiceMatched | apm-agent-plugins/apm-servlet-plugin/src/main/java/co/elastic/apm/servlet/ServletInstrumentation.java:69 | Every matched method is named exactly `service` |
| ServletInstrumentation.ExactServiceName | apm-agent-plugins/apm-servlet-plugin/src/main/java/co/elastic/apm/servlet/ServletInstrumentation.java:69 | The near-miss names `Service`, `services` and `doGet` are not matched |

## Left out

- Byte-code weaving and `@Advice` binding belong to a foreign library. `InterceptedExecute` stands in for the guarantee that the exit advice runs on both return and throw. The original method's body is only its outcome.
- The element matchers' implementations belong to the same library. Supertype resolution is a given set on the descriptor, and `hasSuperType` counts the type itself. A type whose supertypes cannot be resolved is not modelled.
- `HelperClassManager`, `getForClassLoaderOfClass` and class-loader dispatch are plumbing outside this model. `OnBeforeExecute` takes a flag for "the helper is installed".
- The `init` methods, `getAdviceClass` and `getInstrumentationGroupNames` are constants or forwarders to code outside this model. `ServletApiAdvice` is not part of this model.
- `Cassandra3Helper.java` only declares the signature of `createCassandra3Span`.
- `createCassandra3Span`'s `session` parameter is never read by the body, so it is dropped. The tracer that Java reaches through the span is passed explicitly, and `onAfterExecute` also takes it explicitly.
- `statement.toString()` is driver-defined. It is an opaque input string, never null.
- The weak-reference and garbage-collection semantics of `WeakHashMap` are reduced to a plain map with an explicit `Expunge` step.
- Thread safety of `Collections.synchronizedMap`, and the race between `get` and `remove` in `getCqlForStatement`, are concurrency concerns and are not modelled. The active-context stack is one thread's.
- Null keys in the side table are not modelled.
- JavaStrings.ToUpper: changes ASCII letters only. Java's `toUpperCase` is locale-sensitive and covers all of Unicode, and it can change a string's length (`ß` becomes `SS`).
- Cassandra3Helper.GetMethod: its bound "no longer than the statement" holds for the ASCII case mapping only, and the full-Unicode mapping is not modelled.
- `Span`, `AbstractSpan` and `ElasticApmTracer` are reduced to the assumed state described above: no timestamps, no reporting, no error objects beyond the recorded value.
- Evaluating each matcher once per type, ahead of time, is not modelled. The matchers are pure predicates, so evaluation order cannot change their verdict.
