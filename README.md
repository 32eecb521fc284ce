# json-rpc core in Dafny

A model of the core of a small Java JSON-RPC library, with proofs about it.

**Server: `JsonRpcExecutor`.** It keeps a map from handler names to entries. Each entry holds:
- the handler object;
- the interfaces it was registered with, each validated on registration;
- the set of the interfaces' methods;
- per method name, the signature strings `"ret,p1,...,pn"` built from the wire-type names of `SupportedTypes`.

A request `{"id", "method": "handle.op", "params": [...]}` is resolved as follows:
- the name is matched with `METHOD_PATTERN.find()`;
- the first method of the handle's entry whose name is `op` and whose parameter count equals the number of parameters is picked;
- every parameter is converted to its declared type;
- the method is invoked;
- the response `{"id", "result"}` or `{"id", "error"}` is written.

The executor registers itself under `"system"` with the introspection methods `listMethods`, `methodHelp` and `methodSignature`.

**Client: `JsonRpcInvoker`.** It builds the request object, hands its text to a transport, and turns the response object into a return value or a `JsonRpcException`. `JsonRpcException` is an immutable value with a message, an optional payload and an optional cause.

**Form of the model.** It follows each source file's own form:
- The executor is a class. Its `handlers` field is a `map`, and its methods are the Java methods with their loops. Each method is proved against a specification function: `Dispatch`, `Respond`, `ConvertAll`, `SignatureLookup`, `EntryFor`.
- `SupportedTypes` is pure functions over a `JType` datatype that stands for a Java `Class`.
- The invoker's request building is a loop. Its response classification is a function.
- Gson, reflective invocation and the transport are function values that the caller passes in.

**Where the code does something a reader might not expect, the model follows the code:**
- `getTypeName` answers `"boolean"`, not `"bool"`.
- Primitive `short`, `java.lang.Character` and `java.lang.Void` are reported as `"struct"`.
- `isAllowed(Class)` rejects every supertype of `Collection` or `Map` (`Object`, `Iterable`, ...), not only those two types.
- The parameter loop of `isAllowed(Method)` tests the return type again, so parameter types never cause a rejection.
- A handler exception whose message is null yields a response with neither `result` nor `error`.
- The client's void short-circuit compares against `Void.class` only. A primitive `void` method still reads `"result"`.

## Model

| member | source | states |
|---|---|---|
| RpcErrors.WithMessage | jsonrpc/src/main/java/org/json/rpc/JsonRpcException.java:7-9 | the exception carries the message, no payload and no cause |
| RpcErrors.WithPayload | jsonrpc/src/main/java/org/json/rpc/JsonRpcException.java:11-14 | the message-only exception with the payload added and nothing else changed; no cause |
| RpcErrors.WithCause | jsonrpc/src/main/java/org/json/rpc/JsonRpcException.java:16-18 | message and cause set, payload absent |
| RpcErrors.Throwable.Message | jsonrpc/src/main/java/org/json/rpc/server/JsonRpcExecutor.java:85 | getMessage(): absent exactly for an InvocationTargetException and for a NullPointerException or other exception raised without a detail message; an IllegalArgumentException or ClassCastException gives its text; a NullPointerException or other exception gives exactly its detail message |
| SupportedTypes.TypeName | trunk/jsonrpc/src/main/java/org/json/rpc/server/SupportedTypes.java:14-40 | the answer is always one of the seven wire names; for each name, exactly which types receive it (void only for `void.class`, double for the four floating types, int for byte/char/int/long and every non-floating Number, ...) |
| SupportedTypes.GetTypeName | trunk/jsonrpc/src/main/java/org/json/rpc/server/SupportedTypes.java:9-41 | null gives NullPointerException("clazz"), and only null; otherwise exactly the wire name `TypeName` assigns to the type |
| SupportedTypes.UncoveredKindsAreStruct | trunk/jsonrpc/src/main/java/org/json/rpc/server/SupportedTypes.java:27-40 | primitive short, Character and Void fall through to "struct", while Short is a Number and gives "int" |
| SupportedTypes.AllowedUnlessCollectionOrMap | trunk/jsonrpc/src/main/java/org/json/rpc/server/SupportedTypes.java:62-93 | `IsAllowed` (isAllowed(Class)): a type is allowed iff the type under all its array layers is not a supertype of Collection or Map |
| SupportedTypes.ParameterLoop | trunk/jsonrpc/src/main/java/org/json/rpc/server/SupportedTypes.java:53-59 | the loop never rejects when the return type is allowed; a rejection names one of the parameters |
| SupportedTypes.CheckMethod | trunk/jsonrpc/src/main/java/org/json/rpc/server/SupportedTypes.java:43-60 | rejects iff the return type is not allowed, always with "unsupported return type" |
| MethodPattern.MatchAtSound | jsonrpc/src/main/java/org/json/rpc/server/JsonRpcExecutor.java:22-23 | `MatchAt` (one attempt of the matcher at a position): what it returns is a match of the pattern there, with group 2 maximal |
| MethodPattern.MatchAtComplete | jsonrpc/src/main/java/org/json/rpc/server/JsonRpcExecutor.java:22-23 | whenever some match begins at a position, the attempt there succeeds |
| MethodPattern.FindFromSpec | jsonrpc/src/main/java/org/json/rpc/server/JsonRpcExecutor.java:103-109 | `FindFrom` (the scan of find()): scanning from i finds a match iff one starts at or after i, and returns the groups of the leftmost one |
| MethodPattern.FindMethodNameIsLeftmostMatch | jsonrpc/src/main/java/org/json/rpc/server/JsonRpcExecutor.java:103-109 | `FindMethodName` (find() then group(1), group(2)): resolution succeeds iff some substring matches `ident.ident`, and yields the groups of the leftmost match |
| MethodPattern.QualifiedNameResolves | jsonrpc/src/main/java/org/json/rpc/server/JsonRpcExecutor.java:103-109 | `handle + "." + op` of two identifiers resolves to exactly (handle, op) |
| MethodPattern.ThreePartName | jsonrpc/src/main/java/org/json/rpc/server/JsonRpcExecutor.java:103-109 | "a.b.c" resolves to handler "a" and operation "b" |
| MethodPattern.NoDotNoMatch | jsonrpc/src/main/java/org/json/rpc/server/JsonRpcExecutor.java:103-106 | a name without a dot is always an invalid method name |
| CommaLists.SplitJoin | jsonrpc/src/main/java/org/json/rpc/server/JsonRpcExecutor.java:204-209 | cutting a comma-joined text at its commas gives back the parts, when no part holds a comma |
| CommaLists.JoinWithCommas | jsonrpc/src/main/java/org/json/rpc/server/JsonRpcExecutor.java:268-271 | the StringBuffer loop yields the parts joined by ",", and that text splits back into the parts |
| SortedStrings.LessIsLexicographic | jsonrpc/src/main/java/org/json/rpc/server/JsonRpcExecutor.java:226 | `Less` (String.compareTo < 0): a string comes first iff it is a proper prefix of the other, or has the smaller character at the first position where they differ |
| SortedStrings.LessIrreflexive | jsonrpc/src/main/java/org/json/rpc/server/JsonRpcExecutor.java:226 | the TreeSet's String order never puts a string before itself |
| SortedStrings.LessTransitive | jsonrpc/src/main/java/org/json/rpc/server/JsonRpcExecutor.java:226 | the String order is transitive |
| SortedStrings.LessTotal | jsonrpc/src/main/java/org/json/rpc/server/JsonRpcExecutor.java:226 | of two distinct strings, one comes first |
| SortedStrings.LessCommonPrefix | jsonrpc/src/main/java/org/json/rpc/server/JsonRpcExecutor.java:226 | a common prefix does not change the order |
| SortedStrings.Minimum | jsonrpc/src/main/java/org/json/rpc/server/JsonRpcExecutor.java:233 | the element chosen is in the set and below every other element |
| SortedStrings.SortedElements | jsonrpc/src/main/java/org/json/rpc/server/JsonRpcExecutor.java:233 | `TreeSet.toArray()`: strictly ascending, holding exactly the set's elements |
| SortedStrings.DistinctCount | jsonrpc/src/main/java/org/json/rpc/server/JsonRpcExecutor.java:233 | a strictly sorted array holds each of its elements once |
| SortedStrings.SortedUnique | jsonrpc/src/main/java/org/json/rpc/server/JsonRpcExecutor.java:233 | two strictly sorted arrays with the same elements are equal, so the TreeSet's array is determined by its contents |
| SortedStrings.SingletonSorted | jsonrpc/src/main/java/org/json/rpc/server/JsonRpcExecutor.java:280 | the array of a one-element TreeSet is that element alone |
| Registry.TypeNames | jsonrpc/src/main/java/org/json/rpc/server/JsonRpcExecutor.java:206-208 | one wire name per parameter type, in order |
| Registry.AllMethodsContents | jsonrpc/src/main/java/org/json/rpc/server/JsonRpcExecutor.java:195-196 | `AllMethods` (the methods the constructor's loops visit): a method is collected iff one of the non-null interfaces declares it |
| Registry.SignatureSplits | jsonrpc/src/main/java/org/json/rpc/server/JsonRpcExecutor.java:204-209 | `Signature` (the string built at lines 204-209): cut at commas it gives the return type's name followed by each parameter's |
| Registry.SignatureOf | jsonrpc/src/main/java/org/json/rpc/server/JsonRpcExecutor.java:204-209 | the loop builds the return type's name followed by "," and each parameter's name |
| Registry.CollectSignatures | jsonrpc/src/main/java/org/json/rpc/server/JsonRpcExecutor.java:196-211 | after one interface, the name-to-signatures map is that of all methods visited so far, in visiting order |
| Registry.Named | jsonrpc/src/main/java/org/json/rpc/server/JsonRpcExecutor.java:200-210 | the methods bearing a name are exactly those of the list with that name |
| Registry.SignatureMapKeys | jsonrpc/src/main/java/org/json/rpc/server/JsonRpcExecutor.java:196-218 | the map's keys are exactly the names of the methods collected |
| Registry.SignatureMapValues | jsonrpc/src/main/java/org/json/rpc/server/JsonRpcExecutor.java:196-218 | under each name, the signature strings of the methods of that name, in visiting order |
| Registry.SignatureMapContents | jsonrpc/src/main/java/org/json/rpc/server/JsonRpcExecutor.java:196-218 | `SignatureMap` (the map of lines 196-218): every collected method's name is a key, every key holds at least one string, and each key holds the signatures of its methods |
| Registry.CheckMethods | jsonrpc/src/main/java/org/json/rpc/server/JsonRpcExecutor.java:49-51 | the loop passes iff every method's return type is allowed; otherwise it fails at the first refused method |
| Registry.VerifyInterface | jsonrpc/src/main/java/org/json/rpc/server/JsonRpcExecutor.java:41-52 | passes iff the class is non-null, an interface and all return types are allowed; null and non-interface give their own errors; otherwise the error is "unsupported return type" for the first method whose return type is refused |
| Registry.ClassesCheck | jsonrpc/src/main/java/org/json/rpc/server/JsonRpcExecutor.java:188-190 | passes iff every interface does; otherwise the first failing interface's error is reported |
| Registry.ClassesCheckFailurePersists | jsonrpc/src/main/java/org/json/rpc/server/JsonRpcExecutor.java:188-190 | a failure among the first k interfaces is the failure of the whole list, so the loop may stop there |
| Registry.EntryFor | jsonrpc/src/main/java/org/json/rpc/server/JsonRpcExecutor.java:172-222 | a null handler or no interfaces fail first; success iff every interface is non-null, an interface and allowed; otherwise the error is that of the first interface that fails `verifyInterface`; the entry keeps handler, classes, method order and the signature map |
| Registry.MethodsHaveSignatures | jsonrpc/src/main/java/org/json/rpc/server/JsonRpcExecutor.java:263-266 | every method of a registered entry has at least one signature string under its name |
| Registry.SignatureKeysAreMethodNames | jsonrpc/src/main/java/org/json/rpc/server/JsonRpcExecutor.java:215-218 | a name has signatures in a registered entry iff some method of the entry bears it |
| Registry.NewEntry | jsonrpc/src/main/java/org/json/rpc/server/JsonRpcExecutor.java:172-222 | the constructor's loops compute `EntryFor`; an entry built from a faithful method order satisfies the registry invariant |
| Registry.IntrospectionSignatureStrings | jsonrpc/src/main/java/org/json/rpc/server/JsonRpcExecutor.java:204-209 | the introspection methods' signatures are "array", "string,string" and "array,string" |
| Registry.IntrospectionSignatures | jsonrpc/src/main/java/org/json/rpc/server/JsonRpcExecutor.java:196-218 | the signature map of the introspection interface |
| Executor.Response.ToJson | jsonrpc/src/main/java/org/json/rpc/server/JsonRpcExecutor.java:58-92 | the response object has only "id", "result" and "error", each present exactly when set, error as a string |
| Executor.IdOf | jsonrpc/src/main/java/org/json/rpc/server/JsonRpcExecutor.java:67 | the request's id is echoed; when absent it becomes JSON null |
| Executor.ReadEnvelope | jsonrpc/src/main/java/org/json/rpc/server/JsonRpcExecutor.java:69-73 | reading succeeds iff "method" is a primitive and "params" is absent or an array; a missing "params" is the empty array |
| Executor.FirstMatch | jsonrpc/src/main/java/org/json/rpc/server/JsonRpcExecutor.java:116-126 | none iff no method has the name and the arity; otherwise the first one in the entry's order that does |
| Executor.ConvertAll | jsonrpc/src/main/java/org/json/rpc/server/JsonRpcExecutor.java:152-162 | success iff there are enough values and each converts; then value i comes from params[i]; a failure is that of the first parameter that fails, or IndexOutOfBounds when values run out |
| Executor.ConvertFailurePersists | jsonrpc/src/main/java/org/json/rpc/server/JsonRpcExecutor.java:156-160 | a failure among the first k parameters is the result of the whole conversion |
| Executor.Unwrap | jsonrpc/src/main/java/org/json/rpc/server/JsonRpcExecutor.java:136-141 | an InvocationTargetException gives way to its target; any other exception is kept |
| Executor.Dispatch | jsonrpc/src/main/java/org/json/rpc/server/JsonRpcExecutor.java:101-142 | invalid name, unknown handler and no qualifying method give their errors; a failed conversion or invocation gives its exception, unwrapped; a successful conversion and invocation give the invocation's result; a result means the first qualifying method was invoked on the converted parameters and returned it |
| Executor.CanExecuteCountsOnly | jsonrpc/src/main/java/org/json/rpc/server/JsonRpcExecutor.java:144-150 | `CanExecute`: a method is executable only on exactly as many parameters as it declares, and the parameter values never matter |
| Executor.Respond | jsonrpc/src/main/java/org/json/rpc/server/JsonRpcExecutor.java:54-99 | never both result and error; id present iff the request parsed to an object; "unable to read request" on read failures; a result iff dispatch succeeded; otherwise the message of the (unwrapped) exception |
| Executor.SignatureLookup | jsonrpc/src/main/java/org/json/rpc/server/JsonRpcExecutor.java:241-281 | null, invalid name and no such method give their errors; success iff the handle exists and has the name, and then one string, all the name's signatures joined |
| Executor.IntrospectionAccepted | jsonrpc/src/main/java/org/json/rpc/server/JsonRpcExecutor.java:28-31 | registering the executor with the introspection interface succeeds and yields the "system" entry |
| Executor.SelectionIgnoresParameterValues | jsonrpc/src/main/java/org/json/rpc/server/JsonRpcExecutor.java:144-150 | only the number of parameters decides which method is picked, never their values |
| Executor.QualifiedNamesOfMethods | jsonrpc/src/main/java/org/json/rpc/server/JsonRpcExecutor.java:225-232 | `QualifiedNames` (the names listMethods collects): under the registry invariant, a name is listed iff it is "handle.name" for some method of that handle's entry |
| Executor.FreshQualifiedNames | jsonrpc/src/main/java/org/json/rpc/server/JsonRpcExecutor.java:225-234 | a fresh executor has exactly the three "system." names |
| Executor.FreshListing | jsonrpc/src/test/java/org/json/rpc/JsonRpcTest.java:35-38 | a fresh executor's listing is system.listMethods, system.methodHelp, system.methodSignature, in that order |
| Executor.SystemListMethodsResolves | jsonrpc/src/main/java/org/json/rpc/server/JsonRpcExecutor.java:246-252 | "system.listMethods" resolves to ("system", "listMethods") |
| Executor.FreshSignatureLookup | jsonrpc/src/test/java/org/json/rpc/JsonRpcTest.java:41-44 | on a fresh executor the signature of system.listMethods is ["array"] |
| Executor.JoinedSignatures | jsonrpc/src/main/java/org/json/rpc/server/JsonRpcExecutor.java:261-274 | the loop collects one string, the name's signatures joined, when some method bears the name, and nothing otherwise |
| Executor.JsonRpcExecutor.constructor | jsonrpc/src/main/java/org/json/rpc/server/JsonRpcExecutor.java:28-31 | the new executor's map holds exactly "system", bound to the introspection entry |
| Executor.JsonRpcExecutor.AddHandler | jsonrpc/src/main/java/org/json/rpc/server/JsonRpcExecutor.java:33-39 | an invalid entry or an existing name fails and leaves the map unchanged; otherwise exactly the new name is added; existing bindings never change |
| Executor.JsonRpcExecutor.Execute | jsonrpc/src/main/java/org/json/rpc/server/JsonRpcExecutor.java:54-99 | the response is `Respond` of the current handlers |
| Executor.JsonRpcExecutor.ExecuteMethod | jsonrpc/src/main/java/org/json/rpc/server/JsonRpcExecutor.java:101-142 | the search loop with its break computes `Dispatch` |
| Executor.JsonRpcExecutor.GetParameters | jsonrpc/src/main/java/org/json/rpc/server/JsonRpcExecutor.java:152-162 | the loop computes `ConvertAll` |
| Executor.JsonRpcExecutor.ListMethods | jsonrpc/src/main/java/org/json/rpc/server/JsonRpcExecutor.java:225-234 | strictly sorted, and holding exactly the `handler.method` names of all signature keys |
| Executor.JsonRpcExecutor.MethodHelp | jsonrpc/src/main/java/org/json/rpc/server/JsonRpcExecutor.java:236-239 | always the empty string |
| Executor.JsonRpcExecutor.MethodSignature | jsonrpc/src/main/java/org/json/rpc/server/JsonRpcExecutor.java:241-281 | the loops compute `SignatureLookup` |
| Executor.FreshExecutorIntrospection | jsonrpc/src/test/java/org/json/rpc/JsonRpcTest.java:20-44 | on a new executor, listMethods and methodSignature("system.listMethods") give what the two tests expect |
| Executor.SystemSelects | jsonrpc/src/main/java/org/json/rpc/server/JsonRpcExecutor.java:116-126 | in the "system" entry, an introspection method's name and arity select exactly that method, whatever the HashSet order |
| Executor.SystemNameResolves | jsonrpc/src/main/java/org/json/rpc/server/JsonRpcExecutor.java:103-109 | "system." followed by an introspection method's name resolves to "system" and that name |
| Executor.SystemDispatch | jsonrpc/src/main/java/org/json/rpc/server/JsonRpcExecutor.java:101-142 | a request for an introspection method with the right arity reaches that method of the executor itself: conversion failures and invoke's exceptions come back unwrapped, a result unchanged |
| Executor.ListMethodsDispatch | jsonrpc/src/main/java/org/json/rpc/server/JsonRpcExecutor.java:101-142 | when the runtime invokes the executor's own methods (`IntrospectsOver`), a "system.listMethods" request is answered with a listing of the current handlers, strictly sorted and holding exactly their qualified names |
| Executor.MethodSignatureDispatch | jsonrpc/src/main/java/org/json/rpc/server/JsonRpcExecutor.java:101-142 | under `IntrospectsOver`, a "system.methodSignature" request gets `SignatureLookup` of its converted parameter: the array on success, the lookup's own exception (unwrapped) on failure, Gson's exception when the parameter does not convert |
| Executor.IntrospectionRequestNames | jsonrpc/src/main/java/org/json/rpc/server/JsonRpcExecutor.java:28-31 | the request names of the introspection methods are "system.listMethods" and "system.methodSignature" |
| Executor.FreshListMethodsDispatch | jsonrpc/src/test/java/org/json/rpc/JsonRpcTest.java:35-38 | on a fresh executor, dispatching "system.listMethods" yields the array of the three introspection names in order |
| Executor.FreshMethodSignatureDispatch | jsonrpc/src/test/java/org/json/rpc/JsonRpcTest.java:41-44 | on a fresh executor, dispatching "system.methodSignature" with a parameter reading "system.listMethods" yields ["array"] |
| Invoker.Params | jsonrpc/src/main/java/org/json/rpc/client/JsonRpcInvoker.java:41-46 | one tree per argument, in order; empty when args is null |
| Invoker.RequestFor | jsonrpc/src/main/java/org/json/rpc/client/JsonRpcInvoker.java:37-47 | the request holds exactly "id", "method" and "params" with the given values |
| Invoker.BuildRequest | jsonrpc/src/main/java/org/json/rpc/client/JsonRpcInvoker.java:33-47 | the loop builds the request for "handle.method" with one parameter per argument |
| Invoker.FromResult | jsonrpc/src/main/java/org/json/rpc/client/JsonRpcInvoker.java:73 | a value iff fromJson succeeds, that value; otherwise fromJson's exception |
| Invoker.Classify | jsonrpc/src/main/java/org/json/rpc/client/JsonRpcInvoker.java:55-73 | a non-object fails the cast; an "error" member always wins (primitive: message only; otherwise the fixed message with the error text as payload); then Void.class returns null; then a missing result is a NullPointerException; else fromJson of the result |
| Invoker.InvokeResult | jsonrpc/src/main/java/org/json/rpc/client/JsonRpcInvoker.java:49-73 | transport and parse failures propagate; otherwise the classification of the parsed response |
| Invoker.Invoke | jsonrpc/src/main/java/org/json/rpc/client/JsonRpcInvoker.java:29-74 | with an id below Integer.MAX_VALUE, the call computes `InvokeResult` |
| Invoker.Proxy.Get | jsonrpc/src/main/java/org/json/rpc/client/JsonRpcInvoker.java:20-27 | the proxy keeps the transport, handle and interfaces it was made with |
| Invoker.Proxy.Call | jsonrpc/src/main/java/org/json/rpc/client/JsonRpcInvoker.java:23-25 | every call goes to invoke with the proxy's own handle and transport |
| Invoker.ClassifyIgnoresId | jsonrpc/src/main/java/org/json/rpc/client/JsonRpcInvoker.java:57 | the response id is never compared: any id, or none, gives the same outcome |
| Invoker.VoidIgnoresResult | jsonrpc/src/main/java/org/json/rpc/client/JsonRpcInvoker.java:69-71 | a Void.class method returns null whether or not "result" is present |
| Invoker.PrimitiveVoidReadsResult | jsonrpc/src/main/java/org/json/rpc/client/JsonRpcInvoker.java:69-73 | a primitive void method does not take the short-circuit and fails on a missing "result" |
| RoundTrip.ServerReadsClientRequest | jsonrpc/src/main/java/org/json/rpc/server/JsonRpcExecutor.java:67-73 | the server reads back the method name, parameters and id the client put in |
| RoundTrip.ErrorReachesClient | jsonrpc/src/main/java/org/json/rpc/client/JsonRpcInvoker.java:61-63 | a server error message arrives as a JsonRpcException with that message |
| RoundTrip.ResultReachesClient | jsonrpc/src/main/java/org/json/rpc/client/JsonRpcInvoker.java:73 | a server result arrives through fromJson, whatever the echoed id |
| RoundTrip.SilentFailureReachesClient | jsonrpc/src/main/java/org/json/rpc/client/JsonRpcInvoker.java:69-73 | a response with neither result nor error becomes null for Void.class and a NullPointerException otherwise |
| RoundTrip.InProcessCall | jsonrpc/src/test/java/org/json/rpc/JsonRpcTest.java:47-65 | through the in-memory transport, a call is classified on the response execute builds for the client's own request |
| RoundTrip.FreshListMethodsRequest | jsonrpc/src/test/java/org/json/rpc/JsonRpcTest.java:35-38 | execute on a fresh executor answers the client's "system.listMethods" request with its id and the three introspection names |
| RoundTrip.FreshMethodSignatureRequest | jsonrpc/src/test/java/org/json/rpc/JsonRpcTest.java:41-44 | execute on a fresh executor answers the client's "system.methodSignature" request for "system.listMethods" with its id and ["array"] |
| RoundTrip.AnsweredCall | jsonrpc/src/main/java/org/json/rpc/client/JsonRpcInvoker.java:49-73 | a call without arguments whose request execute answers with a result returns fromJson of that result to the caller |
| RoundTrip.FreshListMethodsCall | jsonrpc/src/test/java/org/json/rpc/JsonRpcTest.java:35-38 | the proxy's listMethods call on a fresh executor, through the in-memory transport, returns fromJson of the array of the three names |
| RoundTrip.EndToEnd | jsonrpc/src/test/java/org/json/rpc/JsonRpcTest.java:47-65 | client and server together: an unknown handle, a result, a void return, an error message and a message-less failure (null for Void.class, a NullPointerException otherwise) each reach the caller as the invoker promises |

## Left out

- Gson: parsing and rendering text, `toJsonTree` and `fromJson` are function values given by the caller (`Runtime`, `Gson`). Their own behaviour is not modelled. The round-trip lemmas assume only that parsing a rendered tree gives it back.
- Reflection: `Method.invoke` followed by `toJsonTree` of the returned value is `Runtime.invoke`. `clazz.getMethods()` is the `methods` list of a `Class` value.
- The executor's own introspection methods are reached through `Runtime.invoke` too. That this invocation runs the executor's `listMethods`, `methodHelp` and `methodSignature` over the current handlers is the hypothesis `IntrospectsOver`, which the lemmas about introspection requests take as a precondition; it is not derived from the class, whose methods cannot be called from a function.
- The transports: on the server, a failed `readRequest` or a parse failure is a request of `None`. A failed `writeResponse` is only logged and is not modelled. On the client, the transport is a function from request text to response text or an exception. `HttpJsonRpcClientTransport` is not part of this model.
- Logging through SLF4J has no effect on any result and is left out.
- The iteration order of `HashSet<Method>`: it is the `order` argument of `AddHandler` and of the constructor.
- Executor.JsonRpcExecutor.AddHandler: requires `order` to list each of the interfaces' methods exactly once. This is a property of the HashSet, not a check the source makes.
- The key order of the `HashMap` of handlers and of the signature maps is a nondeterministic choice in the `ListMethods` loops. Found names go into a sorted set, so the order cannot show.
- The `TreeMap` copy of the signature map (JsonRpcExecutor.java:215-218) is the map itself, with string lists as values.
- Executor.JsonRpcExecutor.MethodSignature: requires `Valid()`, the invariant the constructor establishes and every `AddHandler` preserves: every entry was built by the Entry constructor.
- The re-check of `isInterface` after `verifyInterface` (JsonRpcExecutor.java:191-194) can never fire and is left out.
- The null checks that reflection makes unreachable are left out:
  - a null `Method` in `isAllowed(Method)`;
  - a null class in `isAllowed(Class)`;
  - a null parameter or return type.

  A null handler name is not modelled: handler names and request method names are strings here. In the source, `addHandler(null, ...)` registers under the null key, `listMethods` would then report `"null.op"`, and no request can reach that handler.
- JSON numbers are integers. Floating-point values are left out.
- The message of an `IndexOutOfBoundsException` from `JsonArray.get` follows the `"Index: i, Size: n"` form of `ArrayList`. Other Java versions word it differently.
- `Random` draws the request id; here it is an argument, with the bound `0 <= id < Integer.MAX_VALUE`.
- `UndeclaredThrowableException`, which the Java proxy wraps around a checked exception the interface does not declare, is left out. The proxy's unused `proxy` argument is not modelled either.
- String order compares Unicode scalar values. Java compares UTF-16 code units, which differ for characters outside the Basic Multilingual Plane.
- `RpcIntroSpection.java` is not part of this model. Its three methods are taken as `String[] listMethods()`, `String methodHelp(String)` and `String[] methodSignature(String)`, the signatures the executor implements.
- Executor.JsonRpcExecutor.MethodHelp: the source is a stub returning `""`, and the model states only that.
