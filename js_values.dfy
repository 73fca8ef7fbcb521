/**
 * The few JavaScript values the proxy stores in its port-status table and
 * compares against: the initial number 0, HTTP status codes, and the error
 * code strings that Node.js puts on a failed connection.
 */
module JsValues {

  /** A JavaScript value as far as the proxy looks at it. */
  datatype JsValue = Undefined | Num(n: int) | Str(s: string)

  /** JavaScript truthiness: `undefined`, `0` and `""` are falsy. */
  predicate Truthy(v: JsValue)
    ensures Truthy(v) <==> v != Undefined && v != Num(0) && v != Str("")
  {
    match v
    case Undefined => false
    case Num(n) => n != 0
    case Str(s) => s != ""
  }

  /** The error code Node.js reports when nothing listens on the port. */
  const Refused: string := "ECONNREFUSED"

  /**
   * `code != 'ECONNREFUSED'` fails exactly for that string: under loose
   * equality a number never equals it (the string converts to NaN), and
   * neither does `undefined`.
   */
  predicate IsRefused(code: JsValue)
    ensures IsRefused(code) ==> code.Str? && code.s == Refused
    ensures code.Num? || code.Undefined? ==> !IsRefused(code)
  {
    code == Str(Refused)
  }

  /**
   * What a probe's completion handler receives: an HTTP response (which has a
   * `statusCode`) or an error object (which has a `code`); the field the
   * object lacks reads as `undefined`.
   */
  datatype ProbeReply = ProbeReply(statusCode: JsValue, code: JsValue)

  /** An HTTP response with the given status code. */
  function Response(status: int): ProbeReply {
    ProbeReply(Num(status), Undefined)
  }

  /** A connection error with the given error code. */
  function Failure(errorCode: string): ProbeReply {
    ProbeReply(Undefined, Str(errorCode))
  }

  /** `res.statusCode || res.code`: the value a completion stores. */
  function CompletionCode(reply: ProbeReply): (code: JsValue)
    ensures code == reply.statusCode || code == reply.code
    ensures Truthy(reply.statusCode) ==> code == reply.statusCode
    ensures !Truthy(reply.statusCode) ==> code == reply.code
    ensures Truthy(code) <==> Truthy(reply.statusCode) || Truthy(reply.code)
  {
    if Truthy(reply.statusCode) then reply.statusCode else reply.code
  }

  /** A probe that got any HTTP response never reads as refused, whatever its status. */
  lemma ResponseIsNeverRefused(status: int)
    requires status != 0
    ensures CompletionCode(Response(status)) == Num(status)
    ensures !IsRefused(CompletionCode(Response(status)))
  {
  }

  /** A failed probe stores its error code, and reads as refused exactly for ECONNREFUSED. */
  lemma FailureStoresErrorCode(errorCode: string)
    ensures CompletionCode(Failure(errorCode)) == Str(errorCode)
    ensures IsRefused(CompletionCode(Failure(errorCode))) <==> errorCode == Refused
  {
  }
}
