/** Bytes and responses as they pass through the gateway. */
module Wire {
  datatype Option<+T> = None | Some(value: T)

  newtype byte = b: int | 0 <= b < 256
  type Bytes = seq<byte>

  type Header = map<string, seq<string>>

  /** A response captured in full (internal/middleware/cache.go, recordedResponse). */
  datatype Response = Response(status: int, header: Header, body: Bytes)

  /** What a coalesced function returns: a response or nil, and an error or nil. */
  datatype Result = Result(resp: Option<Response>, err: Option<string>)
}
