/**
 * Exceptions. Throwable covers the Java exceptions the core raises or catches; the client's
 * own error value is JsonRpcException, an immutable record of message, payload and cause.
 */
module RpcErrors {
  import opened Wrappers
  import opened JsonModel

  datatype Throwable =
    | IllegalArgument(text: string)            // IllegalArgumentException(text)
    | NullPointer(detail: Option<string>)      // NullPointerException, with or without a detail message
    | ClassCast(text: string)                  // a failed cast of a parsed JSON value
    | InvocationTarget(target: Throwable)      // what reflective invocation wraps around a handler's exception
    | IndexOutOfBounds(index: int, size: int)  // JsonArray.get past the end
    | Raised(detail: Option<string>)           // any other exception (handler code, codec, transport)
  {
    /** Throwable.getMessage(); InvocationTargetException carries no message of its own. */
    function Message(): (msg: Option<string>)
      ensures msg.None? <==> (InvocationTarget? || ((NullPointer? || Raised?) && detail.None?))
      ensures IllegalArgument? || ClassCast? ==> msg == Some(text)
      ensures NullPointer? || Raised? ==> msg == detail
    {
      match this
      case IllegalArgument(t) => Some(t)
      case NullPointer(d) => d
      case ClassCast(t) => Some(t)
      case InvocationTarget(_) => None
      case IndexOutOfBounds(i, n) => Some("Index: " + IntToString(i) + ", Size: " + IntToString(n))
      case Raised(d) => d
    }
  }

  /** org.json.rpc.JsonRpcException: the payload is private and has no setter. */
  datatype JsonRpcException = JsonRpcException(message: string, payload: Option<string>, cause: Option<Throwable>)

  /** JsonRpcException(String message). */
  function WithMessage(message: string): (e: JsonRpcException)
    ensures e.message == message
    ensures e.payload.None? && e.cause.None?
  {
    JsonRpcException(message, None, None)
  }

  /** JsonRpcException(String message, String payload): this(message), then the payload. */
  function WithPayload(message: string, payload: string): (e: JsonRpcException)
    ensures e.message == message && e.payload == Some(payload) && e.cause.None?
    ensures e == WithMessage(message).(payload := Some(payload))
  {
    var base := WithMessage(message);
    base.(payload := Some(payload))
  }

  /** JsonRpcException(String message, Throwable cause). */
  function WithCause(message: string, cause: Throwable): (e: JsonRpcException)
    ensures e.message == message && e.cause == Some(cause)
    ensures e.payload.None?
  {
    JsonRpcException(message, None, Some(cause))
  }
}
