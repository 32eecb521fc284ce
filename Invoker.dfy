/**
 * The client side: JsonRpcInvoker. A proxy returned by get forwards every call to invoke
 * with the handle and transport it was made with; invoke builds the request object, hands
 * its text to the transport and turns the response object into a return value or an
 * exception. Gson and the transport are given as function values.
 */
module Invoker {
  import opened Wrappers
  import opened JsonModel
  import opened RpcErrors
  import opened SupportedTypes

  /** Integer.MAX_VALUE: RAND.nextInt(Integer.MAX_VALUE) draws an id below it. */
  const IntegerMaxValue := 0x7fff_ffff

  const CheckPayload := "error occured, check payload"

  /**
   * The client's Gson: toJsonTree of an argument, fromJson of a result tree for the declared
   * return type, toString of a tree, and JsonParser.parse of the response text.
   */
  datatype Gson<!O> = Gson(toJsonTree: O -> Json,
                           fromJson: (Json, JType) -> Result<O, Throwable>,
                           render: Json -> string,
                           parse: string -> Result<Json, Throwable>)

  /** How a proxied call ends: a value, null for a Void method, or a thrown exception. */
  datatype CallResult<O> =
    | Returned(value: O)
    | ReturnedVoid
    | Rejected(exception: JsonRpcException)
    | Threw(cause: Throwable)

  /** The JsonArray of arguments; a null args array gives the empty array. */
  function Params<O>(gson: Gson<O>, args: Option<seq<O>>): (ps: seq<Json>)
    ensures args.None? ==> ps == []
    ensures args.Some? ==> |ps| == |args.value| && forall i :: 0 <= i < |ps| ==> ps[i] == gson.toJsonTree(args.value[i])
  {
    if args.None? then [] else seq(|args.value|, i requires 0 <= i < |args.value| => gson.toJsonTree(args.value[i]))
  }

  /** The request object with its three members. */
  function RequestFor(id: int, methodName: string, params: seq<Json>): (req: Json)
    ensures req.JObject? && req.members.Keys == {"id", "method", "params"}
    ensures req.members["id"] == JNumber(id)
    ensures req.members["method"] == JString(methodName)
    ensures req.members["params"] == JArray(params)
  {
    JObject(map["id" := JNumber(id), "method" := JString(methodName), "params" := JArray(params)])
  }

  /** The first half of invoke: the id, "handle.method" and the converted arguments. */
  method BuildRequest<O>(gson: Gson<O>, id: int, handleName: string, m: Method, args: Option<seq<O>>)
    returns (req: Json)
    ensures req == RequestFor(id, handleName + "." + m.name, Params(gson, args))
  {
    var methodName := handleName + "." + m.name;
    var params: seq<Json> := [];
    if args.Some? {
      var i := 0;
      while i < |args.value|
        invariant 0 <= i <= |args.value|
        invariant |params| == i && forall j :: 0 <= j < i ==> params[j] == gson.toJsonTree(args.value[j])
      {
        params := params + [gson.toJsonTree(args.value[i])];
        i := i + 1;
      }
    }
    assert params == Params(gson, args);
    req := RequestFor(id, methodName, params);
  }

  /** gson.fromJson(result.toString(), returnType). */
  function FromResult<O>(gson: Gson<O>, result: Json, ret: JType): (r: CallResult<O>)
    ensures r.Returned? || r.Threw?
    ensures r.Returned? <==> gson.fromJson(result, ret).Success?
    ensures r.Returned? ==> Success(r.value) == gson.fromJson(result, ret)
    ensures r.Threw? ==> Failure(r.cause) == gson.fromJson(result, ret)
  {
    match gson.fromJson(result, ret)
    case Success(o) => Returned(o)
    case Failure(t) => Threw(t)
  }

  /**
   * The second half of invoke: an "error" member (even JsonNull) wins; then a Void.class
   * return type; then the result, whose absence is a NullPointerException. "id" is never read.
   */
  function Classify<O>(gson: Gson<O>, resp: Json, ret: JType): (r: CallResult<O>)
    ensures !resp.JObject? ==> r.Threw? && r.cause.ClassCast?
    ensures r.Rejected? <==> resp.JObject? && "error" in resp.members
    ensures resp.JObject? && "error" in resp.members ==>
      var e := resp.members["error"];
      r.exception == (if IsPrimitive(e) then WithMessage(AsString(e)) else WithPayload(CheckPayload, gson.render(e)))
    ensures r.ReturnedVoid? <==> resp.JObject? && "error" !in resp.members && ret == Boxed(Void)
    ensures resp.JObject? && "error" !in resp.members && ret != Boxed(Void) && "result" !in resp.members ==>
      r == Threw(NullPointer(None))
    ensures resp.JObject? && "error" !in resp.members && ret != Boxed(Void) && "result" in resp.members ==>
      r == FromResult(gson, resp.members["result"], ret)
  {
    if !resp.JObject? then Threw(ClassCast("com.google.gson.JsonObject"))
    else
      var members := resp.members;
      if "error" in members then
        var e := members["error"];
        if IsPrimitive(e) then Rejected(WithMessage(AsString(e)))
        else Rejected(WithPayload(CheckPayload, gson.render(e)))
      else if ret == Boxed(Void) then ReturnedVoid
      else if "result" !in members then Threw(NullPointer(None))
      else FromResult(gson, members["result"], ret)
  }

  /** invoke, from the request to the outcome. */
  function InvokeResult<O>(gson: Gson<O>, transport: string -> Result<string, Throwable>,
                           handleName: string, m: Method, args: Option<seq<O>>, id: int): (r: CallResult<O>)
    ensures
      var sent := gson.render(RequestFor(id, handleName + "." + m.name, Params(gson, args)));
      && (transport(sent).Failure? ==> r == Threw(transport(sent).error))
      && (transport(sent).Success? && gson.parse(transport(sent).value).Failure? ==>
            r == Threw(gson.parse(transport(sent).value).error))
      && (transport(sent).Success? && gson.parse(transport(sent).value).Success? ==>
            r == Classify(gson, gson.parse(transport(sent).value).value, m.ret))
  {
    var req := RequestFor(id, handleName + "." + m.name, Params(gson, args));
    match transport(gson.render(req))
    case Failure(t) => Threw(t)
    case Success(text) =>
      match gson.parse(text)
      case Failure(t) => Threw(t)
      case Success(resp) => Classify(gson, resp, m.ret)
  }

  /** invoke: a fresh id below Integer.MAX_VALUE, the request, the transport, the response. */
  method Invoke<O>(gson: Gson<O>, transport: string -> Result<string, Throwable>,
                   handleName: string, m: Method, args: Option<seq<O>>, id: int) returns (r: CallResult<O>)
    requires 0 <= id < IntegerMaxValue
    ensures r == InvokeResult(gson, transport, handleName, m, args, id)
  {
    var req := BuildRequest(gson, id, handleName, m, args);
    var sent := transport(gson.render(req));
    if sent.Failure? {
      return Threw(sent.error);
    }
    var parsed := gson.parse(sent.value);
    if parsed.Failure? {
      return Threw(parsed.error);
    }
    r := Classify(gson, parsed.value, m.ret);
  }

  /** The object get returns: every method called on it goes to invoke with its fixed handle and transport. */
  class Proxy<O> {
    const transport: string -> Result<string, Throwable>
    const handle: string
    const classes: seq<Class>
    const gson: Gson<O>

    /** get(transport, handle, classes). */
    constructor Get(transport: string -> Result<string, Throwable>, handle: string, classes: seq<Class>, gson: Gson<O>)
      ensures this.transport == transport && this.handle == handle
      ensures this.classes == classes && this.gson == gson
    {
      this.transport := transport;
      this.handle := handle;
      this.classes := classes;
      this.gson := gson;
    }

    /** The InvocationHandler: the call is invoke(handle, transport, method, args), id drawn by the caller. */
    method Call(m: Method, args: Option<seq<O>>, id: int) returns (r: CallResult<O>)
      requires 0 <= id < IntegerMaxValue
      ensures r == InvokeResult(gson, transport, handle, m, args, id)
    {
      r := Invoke(gson, transport, handle, m, args, id);
    }
  }

  /** Only "error", "result" and the return type decide the outcome: the response id is ignored. */
  lemma ClassifyIgnoresId<O>(gson: Gson<O>, members: map<string, Json>, id: Json, ret: JType)
    ensures Classify(gson, JObject(members["id" := id]), ret) == Classify(gson, JObject(members - {"id"}), ret)
  {
  }

  /** A Void.class method returns null without reading "result" at all. */
  lemma VoidIgnoresResult<O>(gson: Gson<O>, members: map<string, Json>, result: Json)
    requires "error" !in members
    ensures Classify(gson, JObject(members["result" := result]), Boxed(Void)) == ReturnedVoid
    ensures Classify(gson, JObject(members - {"result"}), Boxed(Void)) == ReturnedVoid
  {
  }

  /** The void short-circuit compares against Void.class only: a primitive void method still reads "result". */
  lemma PrimitiveVoidReadsResult<O>(gson: Gson<O>, members: map<string, Json>)
    requires "error" !in members && "result" !in members
    ensures Classify(gson, JObject(members), Primitive(Void)) == Threw(NullPointer(None))
  {
  }
}
