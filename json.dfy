/** The JSON-RPC boundary: JSON values, the opaque transport error, and the
    request a procedure hands to the transport. */
module Json {

  /** A JSON value. Numbers are integers: nothing in the client sends or
      reads a fractional number. */
  datatype JsonValue =
    | Null
    | Bool(b: bool)
    | Number(n: int)
    | String(s: string)
    | Array(items: seq<JsonValue>)
    | Object(fields: map<string, JsonValue>)

  /** The transport's error. The client never looks inside it; it only
      passes it on. A reply that does not decode into the expected shape
      is reported by the transport as a parse error. */
  datatype RpcError = Transport(detail: string) | ParseError(detail: string)

  /** One JSON-RPC call: the procedure name and its keyed parameters. */
  datatype Request = Request(procedure: string, params: map<string, JsonValue>)
}
