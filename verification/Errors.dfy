/** Thrown values (packages/core/src/errors.ts) and the default retry policy (packages/core/src/client/retry-policy.ts). */
module Errors {
  import opened Common

  /** What can be thrown, told apart as far as `instanceof` and a `code` property can. */
  datatype Error =
    | RpcError(code: string, message: string)
    | NodeError(code: string, message: string)
    | PlainError(message: string)
    | NotAnError(codeProperty: Option<string>, text: string)

  /** `getErrorCode`: the `code` property of a thrown object. */
  function GetErrorCode(error: Error): (code: Option<string>)
    ensures error.RpcError? || error.NodeError? ==> code == Some(error.code)
    ensures error.PlainError? ==> code == None
  {
    match error
    case RpcError(code, _) => Some(code)
    case NodeError(code, _) => Some(code)
    case PlainError(_) => None
    case NotAnError(code, _) => code
  }

  const RETRYABLE_RPC_CODES: set<string> := {
    "CONNECTION_CLOSED",
    "CONNECTION_NOT_OPEN",
    "CONNECTION_NOT_CONNECTED",
    "RPC_TIMEOUT",
    "HEARTBEAT_TIMEOUT",
    "SERVER_DRAINING"
  }

  const RETRYABLE_NODE_CODES: set<string> := {"ECONNREFUSED", "ECONNRESET", "ETIMEDOUT", "EPIPE"}

  predicate DefaultShouldRetry(error: Error) {
    match error
    case RpcError(code, _) => code in RETRYABLE_RPC_CODES
    case _ => GetErrorCode(error).Some? && GetErrorCode(error).value in RETRYABLE_NODE_CODES
  }

  /** The failures after which another try may help: six codes of the framework's own errors, four of Node's. */
  predicate Transient(error: Error) {
    match error
    case RpcError(code, _) =>
      || code == "CONNECTION_CLOSED" || code == "CONNECTION_NOT_OPEN" || code == "CONNECTION_NOT_CONNECTED"
      || code == "RPC_TIMEOUT" || code == "HEARTBEAT_TIMEOUT" || code == "SERVER_DRAINING"
    case NodeError(code, _) => NodeCode(code)
    case PlainError(_) => false
    case NotAnError(code, _) => code.Some? && NodeCode(code.value)
  }

  predicate NodeCode(code: string) {
    code == "ECONNREFUSED" || code == "ECONNRESET" || code == "ETIMEDOUT" || code == "EPIPE"
  }

  lemma RetriedByDefault(error: Error)
    ensures DefaultShouldRetry(error) <==> Transient(error)
  {
  }
}
