/**
 * The cells relays exchange, one per connection. The JSON encoding is not
 * modelled: a cell is its tagged variant, and a JSON object that is not one
 * of the cells the relay interprets is kept as opaque text.
 */
module Cells {
  import opened JavaLang

  /** Circuit identifiers are strings local to each relay. */
  type CircId = string

  datatype Cell =
    | Create(circID: CircId, encryptedSymKey: string, gX: string, srcAddr: string, srcPort: JInt)
    | Created(circID: CircId, gY: string, kHash: string)
    | Relay(circID: CircId, iv: string, relaySecret: string)
    | Destroy(circID: CircId)
    | Data(serverAddr: string, serverPort: JInt, child: Json)

  /**
   * A JSON object as the relay sees it: a cell it recognises, or anything
   * else (no "type" key, another type, or a DATA object whose fields cannot
   * be read), which it only ever forwards unchanged.
   */
  datatype Json = CellJson(cell: Cell) | RawJson(text: string)

  /** The plaintext of a Relay cell: the next hop and the cell to hand it. */
  datatype RelaySecret = RelaySecret(addr: string, port: JInt, child: Json)

  /** One outgoing message: what was written, to which address and port. */
  datatype Send = Send(msg: Json, addr: string, port: JInt)

  /**
   * What `sendToDestination` adds to the log: the message, or nothing when
   * the port is one a socket refuses. The exception that raises is not
   * caught, so the handler dies there as well.
   */
  function Written(s: Send): seq<Send> {
    if SocketPort(s.port) then [s] else []
  }
}
