/**
 * The wire-type classifier and the admissibility check of org.json.rpc.server.SupportedTypes.
 * A Java Class is a JType; a reflected Method is a Method record; an interface is a Class.
 */
module SupportedTypes {
  import opened Wrappers
  import opened RpcErrors

  /** The eight primitive kinds and void; the same names stand for their java.lang wrappers. */
  datatype PrimKind = Void | Boolean | Byte | Char | Short | Int | Long | Float | Double

  datatype JType =
    | Primitive(kind: PrimKind)          // void.class, boolean.class, ..., double.class
    | Boxed(kind: PrimKind)              // java.lang.Void, Boolean, Byte, Character, Short, Integer, Long, Float, Double
    | OtherNumber(name: string)          // java.lang.Number itself or any other subclass of it (BigDecimal, AtomicLong, ...)
    | StringType                         // java.lang.String
    | ArrayOf(component: JType)          // an array class and its component type
    | Reference(name: string, supertypeOfCollectionOrMap: bool)
                                         // any other class or interface; the flag says whether
                                         // Collection or Map is assignable to it (Object, Iterable, Map, ...)

  /** A reflected interface method. Two methods are the same Method only if they agree on all four. */
  datatype Method = Method(declaringClass: string, name: string, params: seq<JType>, ret: JType)

  /** A Class handed to the registry: its name, whether it is an interface, and getMethods(). */
  datatype Class = Class(name: string, isInterface: bool, methods: seq<Method>)

  /** Number.class.isAssignableFrom(t). */
  predicate IsNumber(t: JType) {
    || (t.Boxed? && t.kind in {Byte, Short, Int, Long, Float, Double})
    || t.OtherNumber?
  }

  predicate IsFloating(t: JType) {
    (t.Primitive? || t.Boxed?) && (t.kind == Float || t.kind == Double)
  }

  /** The types reported as "int": the integral kinds the classifier names, and every non-floating Number. */
  predicate IsReportedIntegral(t: JType) {
    || (t.Primitive? && t.kind in {Byte, Char, Int, Long})
    || (IsNumber(t) && !IsFloating(t))
  }

  const WireTypeNames: set<string> := {"void", "boolean", "double", "int", "string", "array", "struct"}

  /** getTypeName on a non-null class. */
  function TypeName(t: JType): (r: string)
    ensures r in WireTypeNames
    ensures r == "void" <==> t == Primitive(Void)
    ensures r == "boolean" <==> (t == Primitive(Boolean) || t == Boxed(Boolean))
    ensures r == "double" <==> IsFloating(t)
    ensures r == "int" <==> IsReportedIntegral(t)
    ensures r == "string" <==> t == StringType
    ensures r == "array" <==> t.ArrayOf?
  {
    if t == Primitive(Void) then "void"
    else if t == Primitive(Boolean) || t == Boxed(Boolean) then "boolean"
    else if t == Primitive(Double) || t == Primitive(Float) || t == Boxed(Double) || t == Boxed(Float) then "double"
    else if t == Primitive(Byte) || t == Primitive(Char) || t == Primitive(Int) || t == Primitive(Long) || IsNumber(t) then "int"
    else if t == StringType then "string"
    else if t.ArrayOf? then "array"
    else "struct"
  }

  /** getTypeName, including its null check. */
  function GetTypeName(clazz: Option<JType>): (r: Result<string, Throwable>)
    ensures clazz.None? <==> r == Failure(NullPointer(Some("clazz")))
    ensures clazz.Some? ==> r.Success? && r.value in WireTypeNames
    ensures clazz.Some? ==> r == Success(TypeName(clazz.value))
  {
    match clazz
    case None => Failure(NullPointer(Some("clazz")))
    case Some(t) => Success(TypeName(t))
  }

  /** Primitive short, java.lang.Character and java.lang.Void are not covered by any rule. */
  lemma UncoveredKindsAreStruct()
    ensures TypeName(Primitive(Short)) == "struct"
    ensures TypeName(Boxed(Char)) == "struct"
    ensures TypeName(Boxed(Void)) == "struct"
    ensures TypeName(Boxed(Short)) == "int"
  {
  }

  /** isAllowed(Class). */
  function IsAllowed(t: JType): bool {
    if t.Primitive? then true
    else if t.ArrayOf? then IsAllowed(t.component)
    else if t == Boxed(Boolean) then true
    else if IsNumber(t) then true
    else if t == StringType then true
    else if t.Reference? && t.supertypeOfCollectionOrMap then false
    else true
  }

  /** The element type of a (possibly nested) array type, the type itself otherwise. */
  function Innermost(t: JType): (r: JType)
    ensures !r.ArrayOf?
  {
    if t.ArrayOf? then Innermost(t.component) else t
  }

  /** A type is refused exactly when, under all its array layers, it is a supertype of Collection or Map. */
  lemma {:induction false} AllowedUnlessCollectionOrMap(t: JType)
    ensures IsAllowed(t) <==> !(Innermost(t).Reference? && Innermost(t).supertypeOfCollectionOrMap)
  {
    if t.ArrayOf? {
      AllowedUnlessCollectionOrMap(t.component);
    }
  }

  datatype TypeError =
    | UnsupportedReturnType(offending: Method)                  // "unsupported return type '...' for method : ..."
    | UnsupportedParameterType(paramType: JType, offending: Method) // "unsupported parameter type '...' for method : ..."

  /** The parameter loop of isAllowed(Method) as written: each iteration tests the RETURN type. */
  function ParameterLoop(m: Method, params: seq<JType>): (r: Outcome<TypeError>)
    ensures IsAllowed(m.ret) ==> r.Pass?
    ensures r.Fail? ==> exists i :: 0 <= i < |params| && r.error == UnsupportedParameterType(params[i], m)
  {
    if |params| == 0 then Pass
    else if !IsAllowed(m.ret) then Fail(UnsupportedParameterType(params[0], m))
    else ParameterLoop(m, params[1..])
  }

  /** isAllowed(Method): only the return type can make it throw. */
  function CheckMethod(m: Method): (r: Outcome<TypeError>)
    ensures r.Fail? <==> !IsAllowed(m.ret)
    ensures r.Fail? ==> r.error == UnsupportedReturnType(m)
  {
    if !IsAllowed(m.ret) then Fail(UnsupportedReturnType(m))
    else ParameterLoop(m, m.params)
  }
}
