/**
 * Client and server together, as the unit test wires them: the proxy's transport hands the
 * request text to JsonRpcExecutor.execute and returns the text it writes. The text layer is
 * Gson's; the lemmas here assume only that parsing a rendered tree gives the tree back.
 */
module RoundTrip {
  import opened Wrappers
  import opened JsonModel
  import opened RpcErrors
  import opened SupportedTypes
  import opened MethodPattern
  import opened Registry
  import opened Executor
  import opened Invoker

  /** The server reads exactly what the client put in the request. */
  lemma ServerReadsClientRequest(id: int, methodName: string, params: seq<Json>)
    ensures ReadEnvelope(RequestFor(id, methodName, params).members) == Some((methodName, params))
    ensures IdOf(RequestFor(id, methodName, params).members) == JNumber(id)
  {
  }

  /** A server error message reaches the client as JsonRpcException(message). */
  lemma ErrorReachesClient<O>(gson: Gson<O>, id: Option<Json>, message: string, ret: JType)
    ensures Classify(gson, Response(id, None, Some(message)).ToJson(), ret) == Rejected(WithMessage(message))
  {
  }

  /** A server result reaches the client through fromJson, whatever the id. */
  lemma ResultReachesClient<O>(gson: Gson<O>, id: Option<Json>, result: Json, ret: JType)
    requires ret != Boxed(Void)
    ensures Classify(gson, Response(id, Some(result), None).ToJson(), ret) == FromResult(gson, result, ret)
  {
  }

  /**
   * A handler exception without a message yields a response with neither result nor error;
   * the client then fails with a NullPointerException unless the method returns Void.
   */
  lemma SilentFailureReachesClient<O>(gson: Gson<O>, id: Option<Json>, ret: JType)
    ensures Classify(gson, Response(id, None, None).ToJson(), ret)
      == (if ret == Boxed(Void) then ReturnedVoid else Threw(NullPointer(None)))
  {
  }

  /** The in-process transport: execute on the parsed request text, then render the response. */
  function LocalTransport<V, O>(handlers: map<string, Entry>, rt: Runtime<V>, gson: Gson<O>)
    : string -> Result<string, Throwable>
  {
    (text: string) =>
      var request := gson.parse(text);
      Success(gson.render(Respond(handlers, if request.Success? then Some(request.value) else None, rt).ToJson()))
  }

  /**
   * A call through the in-process transport is classified on the response execute builds
   * for the very request the client built.
   */
  lemma InProcessCall<V, O>(handlers: map<string, Entry>, rt: Runtime<V>, gson: Gson<O>,
                            handleName: string, m: Method, args: Option<seq<O>>, id: int)
    requires forall j :: gson.parse(gson.render(j)) == Success(j)
    ensures InvokeResult(gson, LocalTransport(handlers, rt, gson), handleName, m, args, id)
      == Classify(gson, Respond(handlers, Some(RequestFor(id, handleName + "." + m.name, Params(gson, args))), rt).ToJson(), m.ret)
  {
    var request := RequestFor(id, handleName + "." + m.name, Params(gson, args));
    var response := Respond(handlers, Some(request), rt).ToJson();
    assert gson.parse(gson.render(request)) == Success(request);
    assert gson.parse(gson.render(response)) == Success(response);
  }

  /**
   * End to end: when the handle and the method name are identifiers, the server dispatches
   * to the handle's entry and the method's name, and the client sees the handler's result
   * through fromJson, or the server's error message as a JsonRpcException.
   */
  lemma {:induction false} EndToEnd<V, O>(handlers: map<string, Entry>, rt: Runtime<V>, gson: Gson<O>,
                                          handleName: string, m: Method, args: Option<seq<O>>, id: int)
    requires forall j :: gson.parse(gson.render(j)) == Success(j)
    requires IsIdent(handleName) && IsIdent(m.name)
    ensures
      var outcome := InvokeResult(gson, LocalTransport(handlers, rt, gson), handleName, m, args, id);
      var d := Dispatch(handlers, handleName + "." + m.name, Params(gson, args), rt);
      && (handleName !in handlers ==> outcome == Rejected(WithMessage(NoSuchMethod)))
      && (d.Success? && m.ret != Boxed(Void) ==> outcome == FromResult(gson, d.value, m.ret))
      && (d.Success? && m.ret == Boxed(Void) ==> outcome == ReturnedVoid)
      && (d.Failure? && d.error.Message().Some? ==> outcome == Rejected(WithMessage(d.error.Message().value)))
      && (d.Failure? && d.error.Message().None? && m.ret != Boxed(Void) ==> outcome == Threw(NullPointer(None)))
      && (d.Failure? && d.error.Message().None? && m.ret == Boxed(Void) ==> outcome == ReturnedVoid)
  {
    var name := handleName + "." + m.name;
    var params := Params(gson, args);
    InProcessCall(handlers, rt, gson, handleName, m, args, id);
    ServerReadsClientRequest(id, name, params);
    QualifiedNameResolves(handleName, m.name);
    var resp := Respond(handlers, Some(RequestFor(id, name, params)), rt);
    var d := Dispatch(handlers, name, params, rt);
    if d.Success? {
      assert resp == Response(Some(JNumber(id)), Some(d.value), None);
      if m.ret != Boxed(Void) {
        ResultReachesClient(gson, resp.id, d.value, m.ret);
      }
    } else {
      assert resp == Response(Some(JNumber(id)), None, d.error.Message());
      if d.error.Message().Some? {
        ErrorReachesClient(gson, resp.id, d.error.Message().value, m.ret);
      } else {
        SilentFailureReachesClient(gson, resp.id, m.ret);
      }
    }
  }

  /**
   * testListMethods through execute: on a fresh executor, the client's request for
   * "system.listMethods" is answered with the three introspection names and the request's id.
   */
  lemma FreshListMethodsRequest<V(!new)>(order: seq<Method>, rt: Runtime<V>, text: V -> Option<string>, id: int)
    requires IsEnumerationOf(order, MethodSet([Some(Introspection)]))
    requires IntrospectsOver(rt, map["system" := SystemEntry(order)], text)
    ensures Respond(map["system" := SystemEntry(order)], Some(RequestFor(id, "system.listMethods", [])), rt)
      == Response(Some(JNumber(id)), Some(StringsJson(SystemNames)), None)
  {
    ServerReadsClientRequest(id, "system.listMethods", []);
    FreshListMethodsDispatch(order, rt, text);
  }

  /**
   * testMethodSignature through execute: on a fresh executor, a request for
   * "system.methodSignature" whose one parameter reads as "system.listMethods" gets ["array"].
   */
  lemma FreshMethodSignatureRequest<V(!new)>(order: seq<Method>, rt: Runtime<V>, text: V -> Option<string>, id: int, p: Json)
    requires IsEnumerationOf(order, MethodSet([Some(Introspection)]))
    requires IntrospectsOver(rt, map["system" := SystemEntry(order)], text)
    requires rt.fromJson(p, StringType).Success? && text(rt.fromJson(p, StringType).value) == Some("system.listMethods")
    ensures Respond(map["system" := SystemEntry(order)], Some(RequestFor(id, "system.methodSignature", [p])), rt)
      == Response(Some(JNumber(id)), Some(StringsJson(["array"])), None)
  {
    ServerReadsClientRequest(id, "system.methodSignature", [p]);
    FreshMethodSignatureDispatch(order, rt, text, p);
  }

  /** A call without arguments whose request execute answers with a result: the caller gets fromJson of it. */
  lemma AnsweredCall<V, O>(handlers: map<string, Entry>, rt: Runtime<V>, gson: Gson<O>,
                           handleName: string, m: Method, id: int, result: Json)
    requires forall j :: gson.parse(gson.render(j)) == Success(j)
    requires m.ret != Boxed(Void)
    requires Respond(handlers, Some(RequestFor(id, handleName + "." + m.name, [])), rt)
      == Response(Some(JNumber(id)), Some(result), None)
    ensures InvokeResult(gson, LocalTransport(handlers, rt, gson), handleName, m, None, id) == FromResult(gson, result, m.ret)
  {
    InProcessCall(handlers, rt, gson, handleName, m, None, id);
    assert Params(gson, None) == [];
    ResultReachesClient(gson, Some(JNumber(id)), result, m.ret);
  }

  /**
   * The proxy's listMethods call on a fresh executor, through the in-process transport:
   * the caller gets fromJson of the array of the three introspection names.
   */
  lemma FreshListMethodsCall<V(!new), O>(order: seq<Method>, rt: Runtime<V>, text: V -> Option<string>,
                                         gson: Gson<O>, id: int)
    requires forall j :: gson.parse(gson.render(j)) == Success(j)
    requires IsEnumerationOf(order, MethodSet([Some(Introspection)]))
    requires IntrospectsOver(rt, map["system" := SystemEntry(order)], text)
    ensures InvokeResult(gson, LocalTransport(map["system" := SystemEntry(order)], rt, gson), "system", ListMethodsOp, None, id)
      == FromResult(gson, StringsJson(SystemNames), ArrayOf(StringType))
  {
    IntrospectionRequestNames();
    assert "system" + "." + ListMethodsOp.name == "system." + ListMethodsOp.name;
    FreshListMethodsRequest(order, rt, text, id);
    AnsweredCall(map["system" := SystemEntry(order)], rt, gson, "system", ListMethodsOp, id, StringsJson(SystemNames));
  }
}
