/** RPC messages (packages/protocol/src/types.ts). */
module Messages {
  import opened Common
  import opened Packet

  /** Application values: parameters and results are carried through and never inspected. */
  type Value(==, !new)

  type Metadata = map<string, string>

  datatype ErrorInfo = ErrorInfo(code: string, message: string)

  datatype RpcMessage =
    | Request(id: string, service: string, methodName: string, params: seq<Value>, metadata: Option<Metadata>)
    | Response(id: string, ok: bool, result: Option<Value>, error: Option<ErrorInfo>, metadata: Option<Metadata>)
    | Ping(id: string, timestamp: int)
    | Pong(id: string, timestamp: int)

  function TypeOf(m: RpcMessage): MessageType {
    match m
    case Request(_, _, _, _, _) => RequestType
    case Response(_, _, _, _, _) => ResponseType
    case Ping(_, _) => PingType
    case Pong(_, _) => PongType
  }
}
