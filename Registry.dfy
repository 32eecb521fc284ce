/**
 * Registration-time part of JsonRpcExecutor: verifyInterface and the private Entry class,
 * whose constructor validates the interfaces and collects, per method name, the signature
 * strings "ret,p1,...,pn" of every method the interfaces declare.
 */
module Registry {
  import opened Wrappers
  import opened SupportedTypes
  import opened CommaLists

  /** The handler object: the executor itself (for "system") or some other instance. */
  datatype Handler = ExecutorItself | Instance(id: nat)

  datatype RegistrationError =
    | NullHandler                 // NullPointerException("handler")
    | NoInterfaces                // IllegalArgumentException("at least one interface has to be mentioned")
    | NullInterface               // NullPointerException("clazz")
    | NotAnInterface(clazz: Class) // IllegalArgumentException("clazz is not an interface")
    | UnsupportedType(reason: TypeError)
    | HandlerAlreadyExists        // IllegalArgumentException("handler already exists")

  /**
   * An Entry: the handler, the interfaces as given, the signature strings of each method
   * name, and the set of methods listed in the (fixed) order in which the HashSet yields them.
   */
  datatype Entry = Entry(handler: Handler, classes: seq<Option<Class>>,
                         signatures: map<string, seq<string>>, methods: seq<Method>)

  /** order lists every element of s exactly once. */
  predicate IsEnumerationOf(order: seq<Method>, s: set<Method>) {
    && (forall i, j :: 0 <= i < j < |order| ==> order[i] != order[j])
    && (forall m :: m in order ==> m in s)
    && (forall m :: m in s ==> m in order)
  }

  // ---------------------------------------------------------------------------------
  // Signature strings

  function TypeNames(ts: seq<JType>): (r: seq<string>)
    ensures |r| == |ts| && forall i :: 0 <= i < |ts| ==> r[i] == TypeName(ts[i])
  {
    seq(|ts|, i requires 0 <= i < |ts| => TypeName(ts[i]))
  }

  /** The signature string of a method: its return type name, then "," and each parameter's. */
  function Signature(m: Method): string {
    Join([TypeName(m.ret)] + TypeNames(m.params))
  }

  /** A signature string can be read back: cut at commas it gives the type names in order. */
  lemma SignatureSplits(m: Method)
    ensures Split(Signature(m)) == [TypeName(m.ret)] + TypeNames(m.params)
  {
    var parts := [TypeName(m.ret)] + TypeNames(m.params);
    forall i | 0 <= i < |parts| ensures ',' !in parts[i] {
      NoCommaInTypeName(if i == 0 then m.ret else m.params[i - 1]);
    }
    SplitJoin(parts);
  }

  lemma NoCommaInTypeName(t: JType)
    ensures ',' !in TypeName(t)
  {
    var n := TypeName(t);
    if n == "void" {} else if n == "boolean" {} else if n == "double" {} else if n == "int" {}
    else if n == "string" {} else if n == "array" {} else {}
  }

  lemma TypeNamesSnoc(ts: seq<JType>, i: nat)
    requires i < |ts|
    ensures TypeNames(ts[..i + 1]) == TypeNames(ts[..i]) + [TypeName(ts[i])]
  {
  }

  /** The StringBuffer loop building one signature string. */
  method SignatureOf(m: Method) returns (s: string)
    ensures s == Signature(m)
  {
    s := TypeName(m.ret);
    var i := 0;
    while i < |m.params|
      invariant 0 <= i <= |m.params|
      invariant s == Join([TypeName(m.ret)] + TypeNames(m.params[..i]))
    {
      TypeNamesSnoc(m.params, i);
      assert [TypeName(m.ret)] + TypeNames(m.params[..i + 1])
          == ([TypeName(m.ret)] + TypeNames(m.params[..i])) + [TypeName(m.params[i])];
      JoinSnoc([TypeName(m.ret)] + TypeNames(m.params[..i]), TypeName(m.params[i]));
      s := s + "," + TypeName(m.params[i]);
      i := i + 1;
    }
    assert m.params[..i] == m.params;
  }

  // ---------------------------------------------------------------------------------
  // The signature map

  function AppendSignature(sigs: map<string, seq<string>>, m: Method): map<string, seq<string>> {
    sigs[m.name := (if m.name in sigs then sigs[m.name] else []) + [Signature(m)]]
  }

  lemma AppendSignatureKeys(sigs: map<string, seq<string>>, m: Method)
    ensures AppendSignature(sigs, m).Keys == sigs.Keys + {m.name}
  {
  }

  /** The map the constructor's loop builds from the methods in the order it visits them. */
  function SignatureMap(ms: seq<Method>): map<string, seq<string>> {
    if |ms| == 0 then map[]
    else AppendSignature(SignatureMap(ms[..|ms| - 1]), ms[|ms| - 1])
  }

  lemma SignatureMapSnoc(ms: seq<Method>, m: Method)
    ensures SignatureMap(ms + [m]) == AppendSignature(SignatureMap(ms), m)
  {
    assert (ms + [m])[..|ms|] == ms;
  }

  /** One turn of the constructor's inner loop: the list under m's name grows by m's signature. */
  lemma CollectStep(done: seq<Method>, m: Method, result: map<string, seq<string>>, s: string)
    requires result == SignatureMap(done) && s == Signature(m)
    ensures result[m.name := (if m.name in result then result[m.name] else []) + [s]] == SignatureMap(done + [m])
  {
    SignatureMapSnoc(done, m);
  }

  lemma PrefixSnoc(visited: seq<Method>, methods: seq<Method>, j: nat)
    requires j < |methods|
    ensures visited + methods[..j + 1] == (visited + methods[..j]) + [methods[j]]
  {
  }

  /** The inner loop of the Entry constructor over one interface's methods. */
  method CollectSignatures(sigs: map<string, seq<string>>, ghost visited: seq<Method>, methods: seq<Method>)
    returns (result: map<string, seq<string>>)
    requires sigs == SignatureMap(visited)
    ensures result == SignatureMap(visited + methods)
  {
    result := sigs;
    var j := 0;
    ghost var done := visited;
    assert visited + methods[..0] == visited;
    while j < |methods|
      invariant 0 <= j <= |methods|
      invariant done == visited + methods[..j]
      invariant result == SignatureMap(done)
    {
      var m := methods[j];
      var s := SignatureOf(m);
      var list := if m.name in result then result[m.name] else [];
      CollectStep(done, m, result, s);
      PrefixSnoc(visited, methods, j);
      result := result[m.name := list + [s]];
      done := done + [m];
      j := j + 1;
    }
    assert methods[..j] == methods;
  }

  /** The methods of ms called n, in order. */
  function Named(ms: seq<Method>, n: string): (r: seq<Method>)
    ensures forall m :: m in r <==> m in ms && m.name == n
  {
    if |ms| == 0 then []
    else Named(ms[..|ms| - 1], n) + (if ms[|ms| - 1].name == n then [ms[|ms| - 1]] else [])
  }

  function SignatureList(ms: seq<Method>): (r: seq<string>)
    ensures |r| == |ms| && forall i :: 0 <= i < |ms| ==> r[i] == Signature(ms[i])
  {
    seq(|ms|, i requires 0 <= i < |ms| => Signature(ms[i]))
  }

  /** The signatures recorded under n; absent names read as the empty list. */
  function Lookup(sigs: map<string, seq<string>>, n: string): seq<string> {
    if n in sigs then sigs[n] else []
  }

  /** The method names occurring in ms. */
  function Names(ms: seq<Method>): set<string> {
    set m | m in ms :: m.name
  }

  lemma NamesSnoc(init: seq<Method>, last: Method)
    ensures Names(init + [last]) == Names(init) + {last.name}
  {
    var ms := init + [last];
    forall n | n in Names(ms) ensures n in Names(init) + {last.name} {
      var m :| m in ms && m.name == n;
      if m != last {
        assert m in init;
      }
    }
    forall n | n in Names(init) + {last.name} ensures n in Names(ms) {
      if n == last.name {
        assert last in ms;
      } else {
        var m :| m in init && m.name == n;
        assert m in ms;
      }
    }
  }

  lemma KeysSnoc(init: seq<Method>, last: Method)
    requires SignatureMap(init).Keys == Names(init)
    ensures SignatureMap(init + [last]).Keys == Names(init + [last])
  {
    NamesSnoc(init, last);
    SignatureMapSnoc(init, last);
    AppendSignatureKeys(SignatureMap(init), last);
  }

  lemma {:induction false} SignatureMapKeys(ms: seq<Method>)
    ensures SignatureMap(ms).Keys == Names(ms)
  {
    if |ms| > 0 {
      var init, last := ms[..|ms| - 1], ms[|ms| - 1];
      assert ms == init + [last];
      SignatureMapKeys(init);
      KeysSnoc(init, last);
    } else {
      assert forall m :: m !in ms;
    }
  }

  lemma SignatureListSnoc(ms: seq<Method>, m: Method)
    ensures SignatureList(ms + [m]) == SignatureList(ms) + [Signature(m)]
  {
  }

  lemma {:induction false} SignatureMapValues(ms: seq<Method>, n: string)
    ensures Lookup(SignatureMap(ms), n) == SignatureList(Named(ms, n))
  {
    if |ms| > 0 {
      var init, last := ms[..|ms| - 1], ms[|ms| - 1];
      SignatureMapValues(init, n);
      if n == last.name {
        SignatureListSnoc(Named(init, n), last);
      }
    }
  }

  /**
   * The keys of the map are the method names, and each name maps to the signature strings
   * of the methods bearing it, in the order they were visited (duplicates kept).
   */
  lemma SignatureMapContents(ms: seq<Method>)
    ensures forall n :: n in SignatureMap(ms) <==> exists m :: m in ms && m.name == n
    ensures forall n :: n in SignatureMap(ms) ==> SignatureMap(ms)[n] == SignatureList(Named(ms, n))
    ensures forall n :: n in SignatureMap(ms) ==> |SignatureMap(ms)[n]| >= 1
  {
    SignatureMapKeys(ms);
    forall n | n in SignatureMap(ms)
      ensures SignatureMap(ms)[n] == SignatureList(Named(ms, n)) && |SignatureMap(ms)[n]| >= 1
    {
      SignatureMapValues(ms, n);
      var m :| m in ms && m.name == n;
      assert m in Named(ms, n);
    }
  }

  // ---------------------------------------------------------------------------------
  // Validation

  /** The methods of the given interfaces, interface by interface, each in getMethods() order. */
  function AllMethods(cs: seq<Option<Class>>): seq<Method> {
    if |cs| == 0 then []
    else AllMethods(cs[..|cs| - 1]) + (if cs[|cs| - 1].Some? then cs[|cs| - 1].value.methods else [])
  }

  lemma AllMethodsSnoc(cs: seq<Option<Class>>, i: nat)
    requires i < |cs| && cs[i].Some?
    ensures AllMethods(cs[..i + 1]) == AllMethods(cs[..i]) + cs[i].value.methods
  {
    assert cs[..i + 1][..i] == cs[..i];
  }

  /** A method is collected iff one of the given (non-null) interfaces declares it. */
  lemma {:induction false} AllMethodsContents(cs: seq<Option<Class>>, m: Method)
    ensures m in AllMethods(cs) <==> exists i :: 0 <= i < |cs| && cs[i].Some? && m in cs[i].value.methods
  {
    if |cs| > 0 {
      var init := cs[..|cs| - 1];
      AllMethodsContents(init, m);
      assert forall i :: 0 <= i < |init| ==> init[i] == cs[i];
    }
  }

  function MethodSet(cs: seq<Option<Class>>): set<Method> {
    set m | m in AllMethods(cs)
  }

  /** The loop of verifyInterface: isAllowed(Method) on each method, stopping at the first refusal. */
  function CheckMethods(ms: seq<Method>): (r: Outcome<RegistrationError>)
    ensures r.Pass? <==> forall i :: 0 <= i < |ms| ==> IsAllowed(ms[i].ret)
    ensures r.Fail? ==>
      exists i :: (0 <= i < |ms| && !IsAllowed(ms[i].ret)
                   && r.error == UnsupportedType(UnsupportedReturnType(ms[i]))
                   && forall j :: 0 <= j < i ==> IsAllowed(ms[j].ret))
  {
    if |ms| == 0 then Pass
    else match CheckMethod(ms[0])
      case Fail(e) => Fail(UnsupportedType(e))
      case Pass =>
        var rest := CheckMethods(ms[1..]);
        assert forall i :: 1 <= i < |ms| ==> ms[1..][i - 1] == ms[i];
        rest
  }

  /** verifyInterface. */
  function VerifyInterface(c: Option<Class>): (r: Outcome<RegistrationError>)
    ensures r.Pass? <==> c.Some? && c.value.isInterface && forall m :: m in c.value.methods ==> IsAllowed(m.ret)
    ensures c.None? ==> r == Fail(NullInterface)
    ensures c.Some? && !c.value.isInterface ==> r == Fail(NotAnInterface(c.value))
    ensures c.Some? && c.value.isInterface && r.Fail? ==>
      var ms := c.value.methods;
      exists i :: (0 <= i < |ms| && !IsAllowed(ms[i].ret)
                   && r.error == UnsupportedType(UnsupportedReturnType(ms[i]))
                   && forall j :: 0 <= j < i ==> IsAllowed(ms[j].ret))
  {
    if c.None? then Fail(NullInterface)
    else if !c.value.isInterface then Fail(NotAnInterface(c.value))
    else CheckMethods(c.value.methods)
  }

  /** verifyInterface over the classes in order: the first failure wins. */
  function ClassesCheck(cs: seq<Option<Class>>): (r: Outcome<RegistrationError>)
    ensures r.Pass? <==> forall i :: 0 <= i < |cs| ==> VerifyInterface(cs[i]).Pass?
    ensures r.Fail? ==>
      exists i :: (0 <= i < |cs| && r == VerifyInterface(cs[i])
                   && forall j :: 0 <= j < i ==> VerifyInterface(cs[j]).Pass?)
  {
    if |cs| == 0 then Pass
    else
      var init := cs[..|cs| - 1];
      assert forall i :: 0 <= i < |init| ==> init[i] == cs[i];
      match ClassesCheck(init)
      case Fail(e) => Fail(e)
      case Pass => VerifyInterface(cs[|cs| - 1])
  }

  lemma {:induction false} ClassesCheckFailurePersists(cs: seq<Option<Class>>, k: nat)
    requires k <= |cs| && ClassesCheck(cs[..k]).Fail?
    ensures ClassesCheck(cs) == ClassesCheck(cs[..k])
    decreases |cs| - k
  {
    if k < |cs| {
      assert cs[..k + 1][..k] == cs[..k];
      ClassesCheckFailurePersists(cs, k + 1);
    } else {
      assert cs[..k] == cs;
    }
  }

  /** What new Entry(handler, classes) produces, the HashSet's order given. */
  function EntryFor(handler: Option<Handler>, classes: seq<Option<Class>>, order: seq<Method>): (r: Result<Entry, RegistrationError>)
    ensures handler.None? ==> r == Failure(NullHandler)
    ensures handler.Some? && |classes| == 0 ==> r == Failure(NoInterfaces)
    ensures r.Success? <==>
      (&& handler.Some? && |classes| > 0
       && forall i :: 0 <= i < |classes| ==>
            (classes[i].Some? && classes[i].value.isInterface
             && forall m :: m in classes[i].value.methods ==> IsAllowed(m.ret)))
    ensures r.Success? ==>
      (&& r.value.handler == handler.value && r.value.classes == classes && r.value.methods == order
       && r.value.signatures == SignatureMap(AllMethods(classes)))
    ensures handler.Some? && |classes| > 0 && r.Failure? ==>
      exists i :: (0 <= i < |classes| && Fail(r.error) == VerifyInterface(classes[i])
                   && forall j :: 0 <= j < i ==> VerifyInterface(classes[j]).Pass?)
  {
    if handler.None? then Failure(NullHandler)
    else if |classes| == 0 then Failure(NoInterfaces)
    else match ClassesCheck(classes)
      case Fail(e) => Failure(e)
      case Pass => Success(Entry(handler.value, classes, SignatureMap(AllMethods(classes)), order))
  }

  /** The invariant of every registered entry. */
  predicate WellFormed(e: Entry) {
    && |e.classes| > 0
    && ClassesCheck(e.classes).Pass?
    && e.signatures == SignatureMap(AllMethods(e.classes))
    && IsEnumerationOf(e.methods, MethodSet(e.classes))
  }

  /** Every method of a well-formed entry has at least one signature string under its name. */
  lemma MethodsHaveSignatures(e: Entry, m: Method)
    requires WellFormed(e) && m in e.methods
    ensures m.name in e.signatures && |e.signatures[m.name]| >= 1
  {
    SignatureMapContents(AllMethods(e.classes));
  }

  /** A name has signatures in a well-formed entry iff one of its methods bears it. */
  lemma SignatureKeysAreMethodNames(e: Entry, n: string)
    requires WellFormed(e)
    ensures n in e.signatures <==> exists m :: m in e.methods && m.name == n
  {
    SignatureMapContents(AllMethods(e.classes));
    if n in e.signatures {
      var m :| m in AllMethods(e.classes) && m.name == n;
      assert m in MethodSet(e.classes);
    }
  }

  /** The Entry constructor: validation of each interface, then its methods' signatures. */
  method NewEntry(handler: Option<Handler>, classes: seq<Option<Class>>, order: seq<Method>)
    returns (r: Result<Entry, RegistrationError>)
    ensures r == EntryFor(handler, classes, order)
    ensures r.Success? && IsEnumerationOf(order, MethodSet(classes)) ==> WellFormed(r.value)
  {
    if handler.None? {
      return Failure(NullHandler);
    }
    if |classes| == 0 {
      return Failure(NoInterfaces);
    }
    var sigs: map<string, seq<string>> := map[];
    var i := 0;
    while i < |classes|
      invariant 0 <= i <= |classes|
      invariant ClassesCheck(classes[..i]).Pass?
      invariant sigs == SignatureMap(AllMethods(classes[..i]))
    {
      assert classes[..i + 1][..i] == classes[..i];
      var check := VerifyInterface(classes[i]);
      if check.Fail? {
        ClassesCheckFailurePersists(classes, i + 1);
        return Failure(check.error);
      }
      var clazz := classes[i].value;
      AllMethodsSnoc(classes, i);
      sigs := CollectSignatures(sigs, AllMethods(classes[..i]), clazz.methods);
      i := i + 1;
    }
    assert classes[..i] == classes;
    r := Success(Entry(handler.value, classes, sigs, order));
  }

  // ---------------------------------------------------------------------------------
  // The built-in introspection interface

  const IntrospectionName := "org.json.rpc.RpcIntroSpection"

  /** RpcIntroSpection: String[] listMethods(), String methodHelp(String), String[] methodSignature(String). */
  const Introspection := Class(IntrospectionName, true, [
    Method(IntrospectionName, "listMethods", [], ArrayOf(StringType)),
    Method(IntrospectionName, "methodHelp", [StringType], StringType),
    Method(IntrospectionName, "methodSignature", [StringType], ArrayOf(StringType))
  ])

  lemma IntrospectionSignatureStrings()
    ensures Signature(Introspection.methods[0]) == "array"
    ensures Signature(Introspection.methods[1]) == "string,string"
    ensures Signature(Introspection.methods[2]) == "array,string"
  {
    assert TypeNames([]) == [];
    assert TypeNames([StringType]) == ["string"];
    assert [TypeName(StringType)] + TypeNames([StringType]) == ["string", "string"];
    JoinSnoc(["string"], "string");
    assert ["string"] + ["string"] == ["string", "string"];
    assert [TypeName(ArrayOf(StringType))] + TypeNames([StringType]) == ["array", "string"];
    JoinSnoc(["array"], "string");
    assert ["array"] + ["string"] == ["array", "string"];
  }

  lemma IntrospectionStep(prefix: seq<Method>, m: Method, before: map<string, seq<string>>, sig: string)
    requires SignatureMap(prefix) == before && m.name !in before && Signature(m) == sig
    ensures SignatureMap(prefix + [m]) == before[m.name := [sig]]
  {
    SignatureMapSnoc(prefix, m);
    assert [] + [sig] == [sig];
  }

  lemma IntrospectionSignatureMap()
    ensures SignatureMap(Introspection.methods)
      == map["listMethods" := ["array"], "methodHelp" := ["string,string"], "methodSignature" := ["array,string"]]
  {
    var ms := Introspection.methods;
    var m0, m1, m2 := ms[0], ms[1], ms[2];
    IntrospectionSignatureStrings();
    IntrospectionStep([], m0, map[], "array");
    assert [] + [m0] == [m0];
    var e1 := map["listMethods" := ["array"]];
    assert m1.name !in e1;
    IntrospectionStep([m0], m1, e1, "string,string");
    assert [m0] + [m1] == [m0, m1];
    var e2 := map["listMethods" := ["array"], "methodHelp" := ["string,string"]];
    assert m2.name !in e2;
    IntrospectionStep([m0, m1], m2, e2, "array,string");
    assert [m0, m1] + [m2] == ms;
  }

  /** The signatures the "system" entry holds. */
  lemma IntrospectionSignatures()
    ensures SignatureMap(AllMethods([Some(Introspection)]))
      == map["listMethods" := ["array"], "methodHelp" := ["string,string"], "methodSignature" := ["array,string"]]
  {
    assert AllMethods([Some(Introspection)]) == Introspection.methods by {
      assert [Some(Introspection)][..0] == [];
    }
    IntrospectionSignatureMap();
  }
}
