/**
 * ASSUMED abstract state of the agent's tracer and spans. The classes
 * `co.elastic.apm.impl.transaction.Span`, `AbstractSpan` and
 * `co.elastic.apm.impl.ElasticApmTracer` are not part of this model; what
 * follows is the least state the instrumentation needs from them:
 * span records (name, type, database statement and type, sampled, error,
 * ended) and a per-thread stack of active contexts on which activation
 * pushes and deactivation pops.
 */
module Tracing {
  import opened Wrappers

  /** Stand-in for a `java.lang.Throwable`: only its identity matters here. */
  datatype Throwable = Throwable(className: string, message: string)

  /** One lifecycle step the tracer performed on a span, in the order performed. */
  datatype LifecycleEvent =
    | Activated(span: AbstractSpan)
    | ExceptionCaptured(span: AbstractSpan, thrown: Option<Throwable>)
    | Deactivated(span: AbstractSpan)
    | Ended(span: AbstractSpan)

  /**
   * A `Span` (when `isSpan`) or a `Transaction` (the root context).
   * Whether it is sampled and who its parent is are fixed at creation.
   */
  class AbstractSpan {
    const isSpan: bool
    const sampled: bool
    const parent: AbstractSpan?
    var name: string
    var spanType: Option<string>
    var dbStatement: Option<string>
    var dbType: Option<string>
    var error: Option<Throwable>
    var ended: bool

    /** A root transaction with the given sampling decision. */
    constructor Transaction(sampled: bool)
      ensures !isSpan && this.sampled == sampled && parent == null
      ensures name == [] && spanType == None && dbStatement == None && dbType == None
      ensures error == None && !ended
    {
      isSpan, this.sampled, parent := false, sampled, null;
      name, spanType, dbStatement, dbType := [], None, None, None;
      error, ended := None, false;
    }

    /** `p.createSpan()`: a new, empty child span that inherits the sampling decision of `p`. */
    constructor ChildOf(p: AbstractSpan)
      ensures isSpan && sampled == p.sampled && parent == p
      ensures name == [] && spanType == None && dbStatement == None && dbType == None
      ensures error == None && !ended
    {
      isSpan, sampled, parent := true, p.sampled, p;
      name, spanType, dbStatement, dbType := [], None, None, None;
      error, ended := None, false;
    }

    /** `setName(n)` */
    method SetName(n: string)
      modifies this`name
      ensures name == n
    {
      name := n;
    }

    /** `withType(t)` */
    method WithType(t: string)
      modifies this`spanType
      ensures spanType == Some(t)
    {
      spanType := Some(t);
    }

    /** `getContext().getDb().withStatement(s)` */
    method WithDbStatement(s: string)
      modifies this`dbStatement
      ensures dbStatement == Some(s)
    {
      dbStatement := Some(s);
    }

    /** `getContext().getDb().withType(t)` */
    method WithDbType(t: string)
      modifies this`dbType
      ensures dbType == Some(t)
    {
      dbType := Some(t);
    }
  }

  /** The active-context stack with its last element on top; popping an empty stack leaves it empty. */
  function Popped(stack: seq<AbstractSpan>): (r: seq<AbstractSpan>)
    ensures stack != [] ==> stack == r + [stack[|stack| - 1]]
    ensures stack == [] ==> r == []
  {
    if stack == [] then [] else stack[..|stack| - 1]
  }

  /** The tracer's per-thread context: the stack of active spans and the lifecycle steps taken so far. */
  class Tracer {
    var stack: seq<AbstractSpan>
    ghost var history: seq<LifecycleEvent>

    constructor ()
      ensures stack == [] && history == []
    {
      stack, history := [], [];
    }

    /** `getActive()`: the top of the stack, or null when nothing is active. */
    function GetActive(): (a: AbstractSpan?)
      reads this
      ensures a == null <==> stack == []
      ensures a != null ==> a == stack[|stack| - 1]
    {
      if stack == [] then null else stack[|stack| - 1]
    }

    /** `span.activate()`: `s` becomes the active context. */
    method Activate(s: AbstractSpan)
      modifies this
      ensures stack == old(stack) + [s]
      ensures history == old(history) + [Activated(s)]
    {
      stack := stack + [s];
      history := history + [Activated(s)];
    }

    /** `span.captureException(t)`: a thrown value, when there is one, is recorded on `s`. */
    method CaptureException(s: AbstractSpan, t: Option<Throwable>)
      modifies this, s`error
      ensures s.error == if t.Some? then t else old(s.error)
      ensures stack == old(stack)
      ensures history == old(history) + [ExceptionCaptured(s, t)]
    {
      if t.Some? {
        s.error := t;
      }
      history := history + [ExceptionCaptured(s, t)];
    }

    /** `span.deactivate()`: the active context returns to what it was before `s` was activated. */
    method Deactivate(s: AbstractSpan)
      modifies this
      ensures stack == Popped(old(stack))
      ensures history == old(history) + [Deactivated(s)]
    {
      stack := Popped(stack);
      history := history + [Deactivated(s)];
    }

    /** `span.end()`: `s` is finished. */
    method End(s: AbstractSpan)
      modifies this, s`ended
      ensures s.ended
      ensures stack == old(stack)
      ensures history == old(history) + [Ended(s)]
    {
      s.ended := true;
      history := history + [Ended(s)];
    }
  }
}
