/**
 * What the type and method matchers see of a loaded class: a small
 * descriptor in place of a byte-code library's type and method descriptions,
 * with supertype resolution already done. The element matchers used by the
 * instrumentations are written as predicates over these descriptors.
 */
module Descriptors {
  import opened JavaStrings

  /**
   * A type: its fully-qualified name, whether it is an interface, and the
   * names of all the classes and interfaces it extends or implements,
   * directly or transitively.
   */
  datatype TypeDescription = TypeDescription(name: string, isInterface: bool, superTypes: set<string>)

  /**
   * A method: its name, whether it is public, the erased type names of its
   * parameters in order, and its return type.
   */
  datatype MethodDescription = MethodDescription(
    name: string,
    isPublic: bool,
    parameterTypes: seq<string>,
    returnType: TypeDescription)

  /** `hasSuperType(named(n))`: `t` is `n` or extends or implements it. */
  predicate HasSuperType(t: TypeDescription, n: string)
  {
    n == t.name || n in t.superTypes
  }

  /** `nameContains(infix)` on a type's fully-qualified name. */
  predicate NameContains(t: TypeDescription, infix: string)
  {
    Contains(t.name, infix)
  }

  /** `nameContainsIgnoreCase(infix)`: the lower-cased name contains the lower-cased infix. */
  predicate NameContainsIgnoreCase(t: TypeDescription, infix: string)
  {
    Contains(ToLower(t.name), ToLower(infix))
  }

  /** `nameStartsWith(prefix)` on a method's name. */
  predicate NameStartsWith(m: MethodDescription, prefix: string)
  {
    StartsWith(m.name, prefix)
  }

  /** `named(n)` on a method's name. */
  predicate Named(m: MethodDescription, n: string)
  {
    m.name == n
  }

  /** `takesArgument(i, named(n))`: `m` has an `i`-th parameter and it is of type `n`. */
  predicate TakesArgument(m: MethodDescription, i: nat, n: string)
  {
    i < |m.parameterTypes| && m.parameterTypes[i] == n
  }

  /** `returns(hasSuperType(named(n)))` */
  predicate ReturnsSubtypeOf(m: MethodDescription, n: string)
  {
    HasSuperType(m.returnType, n)
  }
}
