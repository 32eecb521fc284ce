/**
 * The server side: JsonRpcExecutor, a registry of named handlers that reads one request,
 * dispatches it to the first matching method of the named handler and writes one response.
 * The handler objects, reflective invocation and Gson's conversions are given as a Runtime;
 * the request arrives already parsed (None when reading or parsing it failed).
 */
module Executor {
  import opened Wrappers
  import opened JsonModel
  import opened RpcErrors
  import opened SupportedTypes
  import opened MethodPattern
  import opened CommaLists
  import opened SortedStrings
  import opened Registry

  const InvalidMethodName := "invalid method name"
  const NoSuchMethod := "no such method exists"
  const UnableToRead := "unable to read request"

  /** The JsonObject the executor writes back; error is present only with a non-null message. */
  datatype Response = Response(id: Option<Json>, result: Option<Json>, error: Option<string>)
  {
    /** The response object: "id", "result" and "error" members, each only when set. */
    function ToJson(): (j: Json)
      ensures j.JObject?
      ensures forall k :: k in j.members ==> k == "id" || k == "result" || k == "error"
      ensures ("id" in j.members <==> id.Some?) && (id.Some? ==> j.members["id"] == id.value)
      ensures ("result" in j.members <==> result.Some?) && (result.Some? ==> j.members["result"] == result.value)
      ensures ("error" in j.members <==> error.Some?) && (error.Some? ==> j.members["error"] == JString(error.value))
    {
      var withId: map<string, Json> := if id.Some? then map["id" := id.value] else map[];
      var withResult := if result.Some? then withId["result" := result.value] else withId;
      JObject(if error.Some? then withResult["error" := JString(error.value)] else withResult)
    }
  }

  /**
   * What the executor cannot see: Gson's fromJson for a parameter of the given type (a value
   * of the handler's language V, or the exception Gson throws), and Method.invoke followed by
   * toJsonTree of the returned value (the tree, or what invoke throws).
   */
  datatype Runtime<!V> = Runtime(fromJson: (Json, JType) -> Result<V, Throwable>,
                                invoke: (Handler, Method, seq<V>) -> Result<Json, Throwable>)

  // ---------------------------------------------------------------------------------
  // Reading the request envelope

  /** req.get("id"), as resp.add("id", ...) stores it: an absent member becomes JsonNull. */
  function IdOf(members: map<string, Json>): (id: Json)
    ensures "id" in members ==> id == members["id"]
    ensures "id" !in members ==> id == JNull
  {
    if "id" in members then members["id"] else JNull
  }

  /**
   * The method name and parameters of a parsed request object, or None where the source
   * throws: "method" absent (NullPointerException) or not a primitive (ClassCastException),
   * "params" present but not an array (ClassCastException).
   */
  function ReadEnvelope(members: map<string, Json>): (r: Option<(string, seq<Json>)>)
    ensures r.Some? <==>
      && "method" in members && IsPrimitive(members["method"])
      && ("params" in members ==> members["params"].JArray?)
    ensures r.Some? ==> r.value.0 == AsString(members["method"])
    ensures r.Some? && "params" in members ==> r.value.1 == members["params"].items
    ensures r.Some? && "params" !in members ==> r.value.1 == []
  {
    if "method" !in members || !IsPrimitive(members["method"]) then None
    else if "params" in members && !members["params"].JArray? then None
    else Some((AsString(members["method"]), if "params" in members then members["params"].items else []))
  }

  // ---------------------------------------------------------------------------------
  // Dispatch

  /** canExecute: only the number of parameters is compared, never their kinds or types. */
  predicate CanExecute(m: Method, params: seq<Json>) {
    |m.params| == |params|
  }

  /** canExecute depends on nothing but the number of parameters, never on their values. */
  lemma CanExecuteCountsOnly(m: Method, p: seq<Json>, q: seq<Json>)
    ensures CanExecute(m, p) ==> |p| == |m.params|
    ensures |p| == |q| ==> CanExecute(m, p) == CanExecute(m, q)
  {
  }

  predicate Selects(m: Method, op: string, params: seq<Json>) {
    m.name == op && CanExecute(m, params)
  }

  /** The search loop of executeMethod: the first method, in the entry's order, that qualifies. */
  function FirstMatch(ms: seq<Method>, op: string, params: seq<Json>): (r: Option<Method>)
    ensures r.None? <==> forall i :: 0 <= i < |ms| ==> !Selects(ms[i], op, params)
    ensures r.Some? ==>
      exists i :: (&& 0 <= i < |ms| && ms[i] == r.value && Selects(ms[i], op, params)
                   && forall j :: 0 <= j < i ==> !Selects(ms[j], op, params))
  {
    if |ms| == 0 then None
    else if Selects(ms[0], op, params) then Some(ms[0])
    else
      var rest := FirstMatch(ms[1..], op, params);
      assert forall i :: 1 <= i < |ms| ==> ms[1..][i - 1] == ms[i];
      rest
  }

  /**
   * Parameter i is the first whose conversion fails, with t: Gson's exception, or the
   * IndexOutOfBoundsException of params.get(i) when fewer values than parameters arrived.
   */
  predicate FailsFirstAt<V>(fromJson: (Json, JType) -> Result<V, Throwable>, types: seq<JType>, params: seq<Json>,
                            i: int, t: Throwable) {
    && 0 <= i < |types|
    && i <= |params|
    && (forall j :: 0 <= j < i ==> fromJson(params[j], types[j]).Success?)
    && (if i < |params| then fromJson(params[i], types[i]) == Failure(t) else t == IndexOutOfBounds(i, |params|))
  }

  lemma FailsFirstAtPrefix<V>(fromJson: (Json, JType) -> Result<V, Throwable>, types: seq<JType>, params: seq<Json>,
                              k: nat, i: int, t: Throwable)
    requires k <= |types| && FailsFirstAt(fromJson, types[..k], params, i, t)
    ensures FailsFirstAt(fromJson, types, params, i, t)
  {
    var pre := types[..k];
    forall j | 0 <= j < i
      ensures fromJson(params[j], types[j]).Success?
    {
      assert pre[j] == types[j];
    }
    assert pre[i] == types[i];
  }

  /** The parameter conversion of getParameters, stopping at the first failure. */
  function ConvertAll<V>(fromJson: (Json, JType) -> Result<V, Throwable>, types: seq<JType>, params: seq<Json>)
    : (r: Result<seq<V>, Throwable>)
    ensures r.Success? <==>
      |types| <= |params| && forall i :: 0 <= i < |types| ==> fromJson(params[i], types[i]).Success?
    ensures r.Success? ==>
      |r.value| == |types| && forall i :: 0 <= i < |types| ==> fromJson(params[i], types[i]) == Success(r.value[i])
    ensures r.Failure? ==> exists i :: FailsFirstAt(fromJson, types, params, i, r.error)
  {
    if |types| == 0 then Success([])
    else
      var k := |types| - 1;
      var init := types[..k];
      assert forall i :: 0 <= i < k ==> init[i] == types[i];
      var rest := ConvertAll(fromJson, init, params);
      if rest.Failure? then
        var i :| FailsFirstAt(fromJson, init, params, i, rest.error);
        FailsFirstAtPrefix(fromJson, types, params, k, i, rest.error);
        Failure(rest.error)
      else if k >= |params| then
        assert FailsFirstAt(fromJson, types, params, k, IndexOutOfBounds(k, |params|));
        Failure(IndexOutOfBounds(k, |params|))
      else match fromJson(params[k], types[k])
        case Failure(t) =>
          assert FailsFirstAt(fromJson, types, params, k, t);
          Failure(t)
        case Success(v) => Success(rest.value + [v])
  }

  lemma {:induction false} ConvertFailurePersists<V>(fromJson: (Json, JType) -> Result<V, Throwable>,
                                                     types: seq<JType>, params: seq<Json>, k: nat)
    requires k <= |types| && ConvertAll(fromJson, types[..k], params).Failure?
    ensures ConvertAll(fromJson, types, params) == ConvertAll(fromJson, types[..k], params)
    decreases |types| - k
  {
    if k < |types| {
      assert types[..k + 1][..k] == types[..k];
      ConvertFailurePersists(fromJson, types, params, k + 1);
    } else {
      assert types[..k] == types;
    }
  }

  /** One turn of the getParameters loop: a missing value or a failed conversion ends it, else it grows the list. */
  lemma ConvertStep<V>(fromJson: (Json, JType) -> Result<V, Throwable>, types: seq<JType>, params: seq<Json>,
                       i: nat, list: seq<V>)
    requires i < |types| && ConvertAll(fromJson, types[..i], params) == Success(list)
    ensures i >= |params| ==> ConvertAll(fromJson, types, params) == Failure(IndexOutOfBounds(i, |params|))
    ensures i < |params| && fromJson(params[i], types[i]).Failure? ==>
      ConvertAll(fromJson, types, params) == Failure(fromJson(params[i], types[i]).error)
    ensures i < |params| && fromJson(params[i], types[i]).Success? ==>
      ConvertAll(fromJson, types[..i + 1], params) == Success(list + [fromJson(params[i], types[i]).value])
  {
    assert types[..i + 1][..i] == types[..i];
    if i >= |params| || fromJson(params[i], types[i]).Failure? {
      ConvertFailurePersists(fromJson, types, params, i + 1);
    }
  }

  /** The catch of executeMethod: an InvocationTargetException gives way to its target. */
  function Unwrap(t: Throwable): (u: Throwable)
    ensures t.InvocationTarget? ==> u == t.target
    ensures !t.InvocationTarget? ==> u == t
  {
    if t.InvocationTarget? then t.target else t
  }

  /** The end of executeMethod: convert the parameters, invoke, and unwrap what invoke throws. */
  function InvokeSelected<V>(rt: Runtime<V>, handler: Handler, m: Method, params: seq<Json>): Result<Json, Throwable> {
    match ConvertAll(rt.fromJson, m.params, params)
    case Failure(t) => Failure(Unwrap(t))
    case Success(args) =>
      match rt.invoke(handler, m, args)
      case Failure(t) => Failure(Unwrap(t))
      case Success(j) => Success(j)
  }

  /** executeMethod: resolve "handle.op", pick the method, convert the parameters, invoke. */
  function Dispatch<V>(handlers: map<string, Entry>, name: string, params: seq<Json>, rt: Runtime<V>)
    : (r: Result<Json, Throwable>)
    ensures FindMethodName(name).None? ==> r == Failure(IllegalArgument(InvalidMethodName))
    ensures FindMethodName(name).Some? && FindMethodName(name).value.0 !in handlers ==>
      r == Failure(IllegalArgument(NoSuchMethod))
    ensures FindMethodName(name).Some? && FindMethodName(name).value.0 in handlers ==>
      var (h, op) := FindMethodName(name).value;
      (forall m :: m in handlers[h].methods ==> !Selects(m, op, params)) ==>
        r == Failure(IllegalArgument(NoSuchMethod))
    ensures r.Success? ==>
      && FindMethodName(name).Some?
      && var (h, op) := FindMethodName(name).value;
      && h in handlers
      && var m := FirstMatch(handlers[h].methods, op, params);
      && m.Some? && m.value.name == op && |m.value.params| == |params|
      && var args := ConvertAll(rt.fromJson, m.value.params, params);
      && args.Success?
      && rt.invoke(handlers[h].handler, m.value, args.value) == Success(r.value)
    ensures FindMethodName(name).Some? && FindMethodName(name).value.0 in handlers ==>
      var (h, op) := FindMethodName(name).value;
      var m := FirstMatch(handlers[h].methods, op, params);
      m.Some? ==>
        var args := ConvertAll(rt.fromJson, m.value.params, params);
        && (args.Failure? ==> r == Failure(Unwrap(args.error)))
        && (args.Success? ==>
              var invoked := rt.invoke(handlers[h].handler, m.value, args.value);
              invoked.Failure? ==> r == Failure(Unwrap(invoked.error)))
    ensures FindMethodName(name).Some? && FindMethodName(name).value.0 in handlers ==>
      var (h, op) := FindMethodName(name).value;
      var m := FirstMatch(handlers[h].methods, op, params);
      m.Some? ==>
        var args := ConvertAll(rt.fromJson, m.value.params, params);
        args.Success? ==>
          var invoked := rt.invoke(handlers[h].handler, m.value, args.value);
          invoked.Success? ==> r == Success(invoked.value)
  {
    match FindMethodName(name)
    case None => Failure(IllegalArgument(InvalidMethodName))
    case Some((h, op)) =>
      if h !in handlers then Failure(IllegalArgument(NoSuchMethod))
      else
        var entry := handlers[h];
        match FirstMatch(entry.methods, op, params)
        case None => Failure(IllegalArgument(NoSuchMethod))
        case Some(m) => InvokeSelected(rt, entry.handler, m, params)
  }

  /** execute: the response to one request, given the registered handlers. */
  function Respond<V>(handlers: map<string, Entry>, request: Option<Json>, rt: Runtime<V>): (resp: Response)
    ensures !(resp.result.Some? && resp.error.Some?)
    ensures resp.id.Some? <==> request.Some? && request.value.JObject?
    ensures resp.id.Some? ==> resp.id.value == IdOf(request.value.members)
    ensures request.None? || !request.value.JObject? ==> resp == Response(None, None, Some(UnableToRead))
    ensures request.Some? && request.value.JObject? && ReadEnvelope(request.value.members).None? ==>
      resp.result.None? && resp.error == Some(UnableToRead)
    ensures resp.result.Some? <==>
      && request.Some? && request.value.JObject?
      && var env := ReadEnvelope(request.value.members);
      && env.Some? && Dispatch(handlers, env.value.0, env.value.1, rt).Success?
    ensures resp.result.Some? ==>
      var env := ReadEnvelope(request.value.members).value;
      resp.result.value == Dispatch(handlers, env.0, env.1, rt).value
    ensures request.Some? && request.value.JObject? && ReadEnvelope(request.value.members).Some? ==>
      var env := ReadEnvelope(request.value.members).value;
      var d := Dispatch(handlers, env.0, env.1, rt);
      d.Failure? ==> resp.error == d.error.Message()
  {
    if request.None? || !request.value.JObject? then Response(None, None, Some(UnableToRead))
    else
      var members := request.value.members;
      var id := Some(IdOf(members));
      match ReadEnvelope(members)
      case None => Response(id, None, Some(UnableToRead))
      case Some((name, params)) =>
        match Dispatch(handlers, name, params, rt)
        case Success(j) => Response(id, Some(j), None)
        case Failure(t) => Response(id, None, t.Message())
  }

  // ---------------------------------------------------------------------------------
  // Introspection

  /** Every "handler.method" name listMethods reports. */
  function QualifiedNames(handlers: map<string, Entry>): set<string> {
    set n, k | n in handlers && k in handlers[n].signatures :: n + "." + k
  }

  /** Under the executor's invariant, the listed names are exactly "handle.name" for each registered method. */
  lemma QualifiedNamesOfMethods(handlers: map<string, Entry>, q: string)
    requires forall n :: n in handlers ==> WellFormed(handlers[n])
    ensures q in QualifiedNames(handlers) <==>
      exists n, m :: n in handlers && m in handlers[n].methods && q == n + "." + m.name
  {
    if q in QualifiedNames(handlers) {
      var n, k :| n in handlers && k in handlers[n].signatures && q == n + "." + k;
      SignatureKeysAreMethodNames(handlers[n], k);
    }
    if exists n, m :: n in handlers && m in handlers[n].methods && q == n + "." + m.name {
      var n, m :| n in handlers && m in handlers[n].methods && q == n + "." + m.name;
      MethodsHaveSignatures(handlers[n], m);
    }
  }

  /** methodSignature: one string, all signature strings of the name joined by ",". */
  function SignatureLookup(handlers: map<string, Entry>, qualified: Option<string>): (r: Result<seq<string>, Throwable>)
    ensures qualified.None? ==> r == Failure(NullPointer(Some("method")))
    ensures qualified.Some? && FindMethodName(qualified.value).None? ==> r == Failure(IllegalArgument(InvalidMethodName))
    ensures r.Success? <==>
      && qualified.Some? && FindMethodName(qualified.value).Some?
      && var (h, op) := FindMethodName(qualified.value).value;
      && h in handlers && op in handlers[h].signatures
    ensures r.Failure? && qualified.Some? && FindMethodName(qualified.value).Some? ==>
      r == Failure(IllegalArgument(NoSuchMethod))
    ensures r.Success? ==>
      var (h, op) := FindMethodName(qualified.value).value;
      r.value == [Join(handlers[h].signatures[op])]
  {
    if qualified.None? then Failure(NullPointer(Some("method")))
    else match FindMethodName(qualified.value)
      case None => Failure(IllegalArgument(InvalidMethodName))
      case Some((h, op)) =>
        if h !in handlers || op !in handlers[h].signatures then Failure(IllegalArgument(NoSuchMethod))
        else Success([Join(handlers[h].signatures[op])])
  }

  /** The signature strings of the three introspection methods. */
  const SystemSignatures: map<string, seq<string>> :=
    map["listMethods" := ["array"], "methodHelp" := ["string,string"], "methodSignature" := ["array,string"]]

  /** The entry the constructor registers under "system". */
  function SystemEntry(order: seq<Method>): Entry {
    Entry(ExecutorItself, [Some(Introspection)], SystemSignatures, order)
  }

  lemma IntrospectionAccepted(order: seq<Method>)
    ensures EntryFor(Some(ExecutorItself), [Some(Introspection)], order) == Success(SystemEntry(order))
  {
    var ms := Introspection.methods;
    assert IsAllowed(ms[0].ret) && IsAllowed(ms[1].ret) && IsAllowed(ms[2].ret);
    assert forall m :: m in ms ==> m == ms[0] || m == ms[1] || m == ms[2];
    assert VerifyInterface(Some(Introspection)).Pass?;
    IntrospectionSignatures();
  }

  /** Only the number of parameter values matters for selection, never what they are. */
  lemma {:induction false} SelectionIgnoresParameterValues(ms: seq<Method>, op: string, p: seq<Json>, q: seq<Json>)
    requires |p| == |q|
    ensures FirstMatch(ms, op, p) == FirstMatch(ms, op, q)
  {
    if |ms| > 0 {
      SelectionIgnoresParameterValues(ms[1..], op, p, q);
    }
  }

  const SystemNames := ["system.listMethods", "system.methodHelp", "system.methodSignature"]

  lemma ListBeforeHelp()
    ensures Less("system.listMethods", "system.methodHelp")
  {
  }

  lemma HelpBeforeSignature()
    ensures Less("system.methodHelp", "system.methodSignature")
  {
    LessCommonPrefix("system.method", "Help", "Signature");
    assert "system.methodHelp" == "system.method" + "Help";
    assert "system.methodSignature" == "system.method" + "Signature";
  }

  lemma QualifiedNamesOfOne(name: string, e: Entry, k1: string, k2: string, k3: string)
    requires e.signatures.Keys == {k1, k2, k3}
    ensures QualifiedNames(map[name := e]) == {name + "." + k1, name + "." + k2, name + "." + k3}
  {
    var hs := map[name := e];
    forall x | x in QualifiedNames(hs) ensures x in {name + "." + k1, name + "." + k2, name + "." + k3} {
      var n, k :| n in hs && k in hs[n].signatures && x == n + "." + k;
    }
  }

  lemma SystemNameParts()
    ensures "system" + "." + "listMethods" == "system.listMethods"
    ensures "system" + "." + "methodHelp" == "system.methodHelp"
    ensures "system" + "." + "methodSignature" == "system.methodSignature"
  {
  }

  lemma FreshQualifiedNames(order: seq<Method>)
    ensures QualifiedNames(map["system" := SystemEntry(order)]) == {"system.listMethods", "system.methodHelp", "system.methodSignature"}
  {
    assert SystemEntry(order).signatures.Keys == {"listMethods", "methodHelp", "methodSignature"};
    QualifiedNamesOfOne("system", SystemEntry(order), "listMethods", "methodHelp", "methodSignature");
    SystemNameParts();
  }

  /** listMethods of a fresh executor: the three introspection names, in this order. */
  lemma FreshListing(order: seq<Method>, r: seq<string>)
    requires StrictlySorted(r)
    requires forall x :: x in r <==> x in QualifiedNames(map["system" := SystemEntry(order)])
    ensures r == SystemNames
  {
    FreshQualifiedNames(order);
    ListBeforeHelp();
    HelpBeforeSignature();
    SortedOfThree("system.listMethods", "system.methodHelp", "system.methodSignature");
    SortedUnique(r, SystemNames);
  }

  lemma SystemListMethodsResolves()
    ensures FindMethodName("system.listMethods") == Some(("system", "listMethods"))
  {
    QualifiedNameResolves("system", "listMethods");
    assert "system.listMethods" == "system" + "." + "listMethods";
  }

  /** On a fresh executor, system.listMethods has the one signature "array". */
  lemma FreshSignatureLookup(order: seq<Method>)
    ensures SignatureLookup(map["system" := SystemEntry(order)], Some("system.listMethods")) == Success(["array"])
  {
    SystemListMethodsResolves();
    assert SystemEntry(order).signatures["listMethods"] == ["array"];
  }

  /**
   * The loop of methodSignature over an entry's methods and signature map: for each method
   * called op, all of op's signatures joined by ",". The set has one element when some
   * method bears the name and none otherwise.
   */
  method JoinedSignatures(methods: seq<Method>, sigs: map<string, seq<string>>, op: string)
    returns (signatures: set<string>)
    requires forall m :: m in methods ==> m.name in sigs && |sigs[m.name]| >= 1
    ensures (exists m :: m in methods && m.name == op) ==> op in sigs && signatures == {Join(sigs[op])}
    ensures (forall m :: m in methods ==> m.name != op) ==> signatures == {}
  {
    signatures := {};
    ghost var found := false;
    var i := 0;
    while i < |methods|
      invariant 0 <= i <= |methods|
      invariant found ==> op in sigs && signatures == {Join(sigs[op])}
      invariant found ==> exists j :: 0 <= j < i && methods[j].name == op
      invariant !found ==> signatures == {} && forall j :: 0 <= j < i ==> methods[j].name != op
    {
      var m := methods[i];
      if m.name == op {
        var sign := sigs[m.name];
        var joined := JoinWithCommas(sign);
        signatures := signatures + {joined};
        found := true;
      }
      i := i + 1;
    }
  }

  class JsonRpcExecutor {
    var handlers: map<string, Entry>

    /** Every registered entry passed the Entry constructor, its methods listed once each. */
    ghost predicate Valid()
      reads this
    {
      forall n :: n in handlers ==> WellFormed(handlers[n])
    }

    /** new JsonRpcExecutor(): registers itself as "system" with the RpcIntroSpection interface. */
    constructor(systemOrder: seq<Method>)
      requires IsEnumerationOf(systemOrder, MethodSet([Some(Introspection)]))
      ensures handlers == map["system" := SystemEntry(systemOrder)]
      ensures Valid()
    {
      handlers := map[];
      new;
      IntrospectionAccepted(systemOrder);
      assert Valid() && "system" !in handlers;
      var r := AddHandler("system", Some(ExecutorItself), [Some(Introspection)], systemOrder);
    }

    /**
     * addHandler: the entry is built (and the interfaces validated) before the name is
     * checked; an existing name is never replaced.
     */
    method AddHandler(name: string, handler: Option<Handler>, classes: seq<Option<Class>>, order: seq<Method>)
      returns (r: Outcome<RegistrationError>)
      requires Valid()
      requires IsEnumerationOf(order, MethodSet(classes))
      modifies this
      ensures Valid()
      ensures EntryFor(handler, classes, order).Failure? ==>
        r == Fail(EntryFor(handler, classes, order).error) && handlers == old(handlers)
      ensures EntryFor(handler, classes, order).Success? && name in old(handlers) ==>
        r == Fail(HandlerAlreadyExists) && handlers == old(handlers)
      ensures EntryFor(handler, classes, order).Success? && name !in old(handlers) ==>
        r == Pass && handlers == old(handlers)[name := EntryFor(handler, classes, order).value]
      ensures forall n :: n in old(handlers) ==> n in handlers && handlers[n] == old(handlers)[n]
    {
      var entry := NewEntry(handler, classes, order);
      if entry.Failure? {
        return Fail(entry.error);
      }
      if name in handlers {
        return Fail(HandlerAlreadyExists);
      }
      handlers := handlers[name := entry.value];
      r := Pass;
    }

    /** execute: read the request, dispatch it, build the response. */
    method Execute<V>(request: Option<Json>, rt: Runtime<V>) returns (resp: Response)
      ensures resp == Respond(handlers, request, rt)
    {
      if request.None? || !request.value.JObject? {
        return Response(None, None, Some(UnableToRead));
      }
      var members := request.value.members;
      var id := IdOf(members);
      var envelope := ReadEnvelope(members);
      if envelope.None? {
        return Response(Some(id), None, Some(UnableToRead));
      }
      var (name, params) := envelope.value;
      var result := ExecuteMethod(name, params, rt);
      if result.Success? {
        resp := Response(Some(id), Some(result.value), None);
      } else {
        resp := Response(Some(id), None, result.error.Message());
      }
    }

    /** executeMethod, with its search loop over the entry's methods. */
    method ExecuteMethod<V>(methodName: string, params: seq<Json>, rt: Runtime<V>) returns (r: Result<Json, Throwable>)
      ensures r == Dispatch(handlers, methodName, params, rt)
    {
      var found := FindMethodName(methodName);
      if found.None? {
        return Failure(IllegalArgument(InvalidMethodName));
      }
      var (handleName, op) := found.value;
      if handleName !in handlers {
        return Failure(IllegalArgument(NoSuchMethod));
      }
      var entry := handlers[handleName];
      var executable: Option<Method> := None;
      var i := 0;
      while i < |entry.methods|
        invariant 0 <= i <= |entry.methods|
        invariant executable.None? ==> FirstMatch(entry.methods, op, params) == FirstMatch(entry.methods[i..], op, params)
        invariant executable.Some? ==> executable == FirstMatch(entry.methods, op, params)
      {
        var m := entry.methods[i];
        assert entry.methods[i..][1..] == entry.methods[i + 1..];
        if m.name == op && CanExecute(m, params) {
          executable := Some(m);
          break;
        }
        i := i + 1;
      }
      if executable.None? {
        return Failure(IllegalArgument(NoSuchMethod));
      }
      var m := executable.value;
      assert Dispatch(handlers, methodName, params, rt) == InvokeSelected(rt, entry.handler, m, params);
      var args := GetParameters(m, params, rt.fromJson);
      if args.Failure? {
        return Failure(Unwrap(args.error));
      }
      var invoked := rt.invoke(entry.handler, m, args.value);
      if invoked.Failure? {
        return Failure(Unwrap(invoked.error));
      }
      r := Success(invoked.value);
    }

    /** getParameters: each parameter converted to its declared type, in order. */
    method GetParameters<V>(m: Method, params: seq<Json>, fromJson: (Json, JType) -> Result<V, Throwable>)
      returns (r: Result<seq<V>, Throwable>)
      ensures r == ConvertAll(fromJson, m.params, params)
    {
      var list: seq<V> := [];
      var i := 0;
      while i < |m.params|
        invariant 0 <= i <= |m.params|
        invariant ConvertAll(fromJson, m.params[..i], params) == Success(list)
      {
        ConvertStep(fromJson, m.params, params, i, list);
        if i >= |params| {
          return Failure(IndexOutOfBounds(i, |params|));
        }
        var o := fromJson(params[i], m.params[i]);
        if o.Failure? {
          return Failure(o.error);
        }
        list := list + [o.value];
        i := i + 1;
      }
      assert m.params[..i] == m.params;
      r := Success(list);
    }

    /** listMethods: every "handler.method" name, once each, in String order. */
    method ListMethods() returns (r: seq<string>)
      ensures StrictlySorted(r)
      ensures forall x :: x in r <==> x in QualifiedNames(handlers)
    {
      var methods: set<string> := {};
      var pending := handlers.Keys;
      while pending != {}
        invariant pending <= handlers.Keys
        invariant forall x :: x in methods ==> x in QualifiedNames(handlers)
        invariant forall n, k :: n in handlers && n !in pending && k in handlers[n].signatures ==> n + "." + k in methods
        decreases pending
      {
        var name :| name in pending;
        var entry := handlers[name];
        var keys := entry.signatures.Keys;
        while keys != {}
          invariant keys <= entry.signatures.Keys
          invariant forall x :: x in methods ==> x in QualifiedNames(handlers)
          invariant forall n, k :: n in handlers && n !in pending && k in handlers[n].signatures ==> n + "." + k in methods
          invariant forall k :: k in entry.signatures && k !in keys ==> name + "." + k in methods
          decreases keys
        {
          var key :| key in keys;
          methods := methods + {name + "." + key};
          keys := keys - {key};
        }
        pending := pending - {name};
      }
      r := SortedElements(methods);
    }

    /** methodHelp: not implemented; the empty string for every argument. */
    function MethodHelp(qualified: Option<string>): (r: string)
      ensures |r| == 0
    {
      ""
    }

    /** methodSignature, with its loop over the methods bearing the name. */
    method MethodSignature(qualified: Option<string>) returns (r: Result<seq<string>, Throwable>)
      requires Valid()
      ensures r == SignatureLookup(handlers, qualified)
    {
      if qualified.None? {
        return Failure(NullPointer(Some("method")));
      }
      var found := FindMethodName(qualified.value);
      if found.None? {
        return Failure(IllegalArgument(InvalidMethodName));
      }
      var (handleName, op) := found.value;
      var signatures: set<string> := {};
      if handleName !in handlers {
        return Failure(IllegalArgument(NoSuchMethod));
      }
      var entry := handlers[handleName];
      forall m | m in entry.methods
        ensures m.name in entry.signatures && |entry.signatures[m.name]| >= 1
      {
        MethodsHaveSignatures(entry, m);
      }
      SignatureKeysAreMethodNames(entry, op);
      signatures := JoinedSignatures(entry.methods, entry.signatures, op);
      if signatures == {} {
        return Failure(IllegalArgument(NoSuchMethod));
      }
      var sorted := SortedElements(signatures);
      SingletonSorted(sorted, Join(entry.signatures[op]));
      r := Success(sorted);
    }
  }

  /**
   * The two introspection tests: a fresh executor lists exactly its three own methods,
   * and the signature of system.listMethods is ["array"].
   */
  method FreshExecutorIntrospection(order: seq<Method>) returns (names: seq<string>, signature: Result<seq<string>, Throwable>)
    requires IsEnumerationOf(order, MethodSet([Some(Introspection)]))
    ensures names == SystemNames
    ensures signature == Success(["array"])
  {
    var executor := new JsonRpcExecutor(order);
    names := executor.ListMethods();
    FreshListing(order, names);
    signature := executor.MethodSignature(Some("system.listMethods"));
    FreshSignatureLookup(order);
  }

  // ---------------------------------------------------------------------------------
  // Introspection requests: execute reaching the executor's own methods

  const ListMethodsOp := Introspection.methods[0]
  const MethodHelpOp := Introspection.methods[1]
  const MethodSignatureOp := Introspection.methods[2]

  /** toJsonTree of a String[]: a JSON array of the strings, in order. */
  function StringsJson(ss: seq<string>): (j: Json)
    ensures j.JArray? && |j.items| == |ss|
    ensures forall i :: 0 <= i < |ss| ==> j.items[i] == JString(ss[i])
  {
    JArray(seq(|ss|, i requires 0 <= i < |ss| => JString(ss[i])))
  }

  /** r is a possible answer of listMethods over these handlers (the ensures of ListMethods). */
  ghost predicate IsListing(r: seq<string>, handlers: map<string, Entry>) {
    StrictlySorted(r) && forall x :: x in r <==> x in QualifiedNames(handlers)
  }

  /** What Method.invoke makes of methodSignature: the array as a tree, or the exception wrapped. */
  function SignatureReply(r: Result<seq<string>, Throwable>): (j: Result<Json, Throwable>)
    ensures r.Success? ==> j == Success(StringsJson(r.value))
    ensures r.Failure? ==> j == Failure(InvocationTarget(r.error))
  {
    match r
    case Success(ss) => Success(StringsJson(ss))
    case Failure(e) => Failure(InvocationTarget(e))
  }

  /**
   * The runtime invokes the executor's own RpcIntroSpection methods as the executor defines
   * them over these handlers: listMethods, methodHelp and methodSignature, an exception of
   * the latter wrapped in an InvocationTargetException. text(v) is the String that a
   * converted parameter value v holds (None for null).
   */
  ghost predicate IntrospectsOver<V(!new)>(rt: Runtime<V>, handlers: map<string, Entry>, text: V -> Option<string>) {
    && (exists r :: IsListing(r, handlers) && rt.invoke(ExecutorItself, ListMethodsOp, []) == Success(StringsJson(r)))
    && (forall args: seq<V> | |args| == 1 :: rt.invoke(ExecutorItself, MethodHelpOp, args) == Success(JString("")))
    && (forall args: seq<V> | |args| == 1 ::
          rt.invoke(ExecutorItself, MethodSignatureOp, args) == SignatureReply(SignatureLookup(handlers, text(args[0]))))
  }

  /** In the "system" entry, a name and an arity select the one introspection method that has them. */
  lemma SystemSelects(order: seq<Method>, m: Method, params: seq<Json>)
    requires IsEnumerationOf(order, MethodSet([Some(Introspection)]))
    requires m in Introspection.methods && |m.params| == |params|
    ensures FirstMatch(order, m.name, params) == Some(m)
  {
    assert AllMethods([Some(Introspection)]) == Introspection.methods by {
      assert [Some(Introspection)][..0] == [];
    }
    assert m in MethodSet([Some(Introspection)]);
    var r := FirstMatch(order, m.name, params);
    assert Selects(m, m.name, params);
    assert r.Some?;
    assert r.value in MethodSet([Some(Introspection)]);
  }

  /** The method name of an introspection request resolves to "system" and the method's name. */
  lemma SystemNameResolves(m: Method)
    requires m in Introspection.methods
    ensures FindMethodName("system." + m.name) == Some(("system", m.name))
  {
    QualifiedNameResolves("system", m.name);
    assert "system." + m.name == "system" + "." + m.name;
  }

  /**
   * A request for one of the introspection methods, with as many parameters as it declares,
   * reaches that method of the executor itself: the converted parameters are handed to invoke.
   */
  lemma SystemDispatch<V>(handlers: map<string, Entry>, order: seq<Method>, rt: Runtime<V>, m: Method, params: seq<Json>)
    requires "system" in handlers && handlers["system"] == SystemEntry(order)
    requires IsEnumerationOf(order, MethodSet([Some(Introspection)]))
    requires m in Introspection.methods && |m.params| == |params|
    ensures var args := ConvertAll(rt.fromJson, m.params, params);
      && (args.Failure? ==> Dispatch(handlers, "system." + m.name, params, rt) == Failure(Unwrap(args.error)))
      && (args.Success? && rt.invoke(ExecutorItself, m, args.value).Success? ==>
            Dispatch(handlers, "system." + m.name, params, rt) == rt.invoke(ExecutorItself, m, args.value))
      && (args.Success? && rt.invoke(ExecutorItself, m, args.value).Failure? ==>
            Dispatch(handlers, "system." + m.name, params, rt) == Failure(Unwrap(rt.invoke(ExecutorItself, m, args.value).error)))
  {
    SystemNameResolves(m);
    SystemSelects(order, m, params);
  }

  /** A "system.listMethods" request without parameters is answered by listMethods over the current handlers. */
  lemma ListMethodsDispatch<V(!new)>(handlers: map<string, Entry>, order: seq<Method>, rt: Runtime<V>, text: V -> Option<string>)
    requires "system" in handlers && handlers["system"] == SystemEntry(order)
    requires IsEnumerationOf(order, MethodSet([Some(Introspection)]))
    requires IntrospectsOver(rt, handlers, text)
    ensures exists r :: IsListing(r, handlers) && Dispatch(handlers, "system." + ListMethodsOp.name, [], rt) == Success(StringsJson(r))
  {
    SystemDispatch(handlers, order, rt, ListMethodsOp, []);
    assert ConvertAll(rt.fromJson, ListMethodsOp.params, []) == Success([]);
  }

  /**
   * A "system.methodSignature" request with one parameter is answered by methodSignature over
   * the current handlers: its array, or the exception it throws.
   */
  lemma MethodSignatureDispatch<V(!new)>(handlers: map<string, Entry>, order: seq<Method>, rt: Runtime<V>,
                                         text: V -> Option<string>, p: Json)
    requires "system" in handlers && handlers["system"] == SystemEntry(order)
    requires IsEnumerationOf(order, MethodSet([Some(Introspection)]))
    requires IntrospectsOver(rt, handlers, text)
    ensures rt.fromJson(p, StringType).Failure? ==>
      Dispatch(handlers, "system." + MethodSignatureOp.name, [p], rt) == Failure(Unwrap(rt.fromJson(p, StringType).error))
    ensures rt.fromJson(p, StringType).Success? ==>
      var lookup := SignatureLookup(handlers, text(rt.fromJson(p, StringType).value));
      && (lookup.Success? ==> Dispatch(handlers, "system." + MethodSignatureOp.name, [p], rt) == Success(StringsJson(lookup.value)))
      && (lookup.Failure? ==> Dispatch(handlers, "system." + MethodSignatureOp.name, [p], rt) == Failure(lookup.error))
  {
    SystemDispatch(handlers, order, rt, MethodSignatureOp, [p]);
    var args := ConvertAll(rt.fromJson, MethodSignatureOp.params, [p]);
    if args.Success? {
      assert args.value == [rt.fromJson(p, StringType).value];
    }
  }

  lemma IntrospectionRequestNames()
    ensures "system." + ListMethodsOp.name == "system.listMethods"
    ensures "system." + MethodSignatureOp.name == "system.methodSignature"
  {
    assert ListMethodsOp.name == "listMethods" && MethodSignatureOp.name == "methodSignature";
  }

  /** On a fresh executor, the request "system.listMethods" gets the three introspection names. */
  lemma FreshListMethodsDispatch<V(!new)>(order: seq<Method>, rt: Runtime<V>, text: V -> Option<string>)
    requires IsEnumerationOf(order, MethodSet([Some(Introspection)]))
    requires IntrospectsOver(rt, map["system" := SystemEntry(order)], text)
    ensures Dispatch(map["system" := SystemEntry(order)], "system.listMethods", [], rt) == Success(StringsJson(SystemNames))
  {
    var handlers := map["system" := SystemEntry(order)];
    ListMethodsDispatch(handlers, order, rt, text);
    IntrospectionRequestNames();
    var r :| IsListing(r, handlers) && Dispatch(handlers, "system.listMethods", [], rt) == Success(StringsJson(r));
    FreshListing(order, r);
  }

  /** On a fresh executor, methodSignature("system.listMethods") requested through execute gets ["array"]. */
  lemma FreshMethodSignatureDispatch<V(!new)>(order: seq<Method>, rt: Runtime<V>, text: V -> Option<string>, p: Json)
    requires IsEnumerationOf(order, MethodSet([Some(Introspection)]))
    requires IntrospectsOver(rt, map["system" := SystemEntry(order)], text)
    requires rt.fromJson(p, StringType).Success? && text(rt.fromJson(p, StringType).value) == Some("system.listMethods")
    ensures Dispatch(map["system" := SystemEntry(order)], "system.methodSignature", [p], rt) == Success(StringsJson(["array"]))
  {
    MethodSignatureDispatch(map["system" := SystemEntry(order)], order, rt, text, p);
    IntrospectionRequestNames();
    FreshSignatureLookup(order);
  }
}
