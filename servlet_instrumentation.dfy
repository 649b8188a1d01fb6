/**
 * `ServletInstrumentation`: which classes and methods the servlet plugin
 * instruments to create transactions.
 */
module ServletInstrumentation {
  import opened JavaStrings
  import opened Descriptors

  const HttpServletName: string := "javax.servlet.http.HttpServlet"
  const HttpServletRequestName: string := "javax.servlet.http.HttpServletRequest"
  const HttpServletResponseName: string := "javax.servlet.http.HttpServletResponse"

  /**
   * The cheap name pre-filter: `Servlet` in the name (case-sensitive), or
   * `j`, `s`, `p` in a row in any letter case.
   */
  predicate NamePreFilter(t: TypeDescription)
    ensures NamePreFilter(t) <==> Contains(t.name, "Servlet") || ContainsIgnoringCase(t.name, "jsp")
  {
    LowerCaseContains(t.name, "jsp");
    assert ToLower("jsp") == "jsp" by {
      var l := ToLower("jsp");
      assert l[0] == 'j' && l[1] == 's' && l[2] == 'p';
    }
    NameContains(t, "Servlet") || NameContainsIgnoreCase(t, "jsp")
  }

  /** `getTypeMatcher()`: classes (not interfaces) that pass the name pre-filter and extend `HttpServlet`. */
  predicate TypeMatcher(t: TypeDescription)
    ensures TypeMatcher(t) <==>
              && !t.isInterface
              && (Contains(t.name, "Servlet") || ContainsIgnoringCase(t.name, "jsp"))
              && (t.name == HttpServletName || HttpServletName in t.superTypes)
  {
    !t.isInterface && NamePreFilter(t) && HasSuperType(t, HttpServletName)
  }

  /** `getMethodMatcher()`: `service(HttpServletRequest, HttpServletResponse, ...)`, of any visibility. */
  predicate MethodMatcher(m: MethodDescription)
  {
    Named(m, "service") && TakesArgument(m, 0, HttpServletRequestName) && TakesArgument(m, 1, HttpServletResponseName)
  }

  /** An interface is never instrumented. */
  lemma InterfaceNeverMatched(t: TypeDescription)
    requires t.isInterface
    ensures !TypeMatcher(t)
  {
  }

  /** Passing the name filter is not enough: the type must also extend `HttpServlet`. */
  lemma {:induction false} NameAloneNotEnough(t: TypeDescription)
    requires t.name == "com.example.ServletHelper" && !t.isInterface && HttpServletName !in t.superTypes
    ensures NamePreFilter(t) && !TypeMatcher(t)
  {
    assert OccursAt(t.name, "Servlet", 12);
    assert t.name != HttpServletName by {
      assert |t.name| != |HttpServletName|;
    }
  }

  /**
   * The pre-filter loses servlets: a subclass of `HttpServlet` whose name
   * has neither `Servlet` nor an any-case `jsp` is not instrumented.
   */
  lemma {:induction false} PreFilterFalseNegative(t: TypeDescription)
    requires HttpServletName in t.superTypes
    requires !Contains(t.name, "Servlet") && !ContainsIgnoringCase(t.name, "jsp")
    ensures !TypeMatcher(t)
  {
  }

  /** A compiled JSP page (`org.apache.jsp.index_jsp` extending `HttpServlet`) is instrumented. */
  lemma {:induction false} CompiledJspMatched(t: TypeDescription)
    requires t.name == "org.apache.jsp.index_jsp" && !t.isInterface && HttpServletName in t.superTypes
    ensures TypeMatcher(t)
  {
    assert OccursAtIgnoringCase(t.name, "jsp", 11);
  }

  /** The method matcher imposes no visibility: a protected `service` is matched like a public one. */
  lemma VisibilityIgnored(m: MethodDescription)
    ensures MethodMatcher(m) <==> MethodMatcher(m.(isPublic := !m.isPublic))
  {
  }

  /** A method with fewer than two parameters is never matched, and more than two do not hurt. */
  lemma {:induction false} ParameterCount(m: MethodDescription)
    ensures |m.parameterTypes| < 2 ==> !MethodMatcher(m)
    ensures MethodMatcher(m) ==> forall extra :: MethodMatcher(m.(parameterTypes := m.parameterTypes + extra))
  {
  }

  /** Every matched method is named exactly `service`. */
  lemma OnlyServiceMatched(m: MethodDescription)
    requires MethodMatcher(m)
    ensures m.name == "service"
  {
  }

  /** For example, `Service`, `services` and `doGet` are not matched. */
  lemma {:induction false} ExactServiceName(m: MethodDescription)
    requires m.name == "Service" || m.name == "doGet" || m.name == "services"
    ensures !MethodMatcher(m)
  {
  }
}
