/**
 * The five circuit tables a relay keeps, and the read-only computations
 * over them: opening an inbound Relay cell, the Create handshake, and
 * re-wrapping a cell for the return trip (both `packageInRelayCell`
 * overloads) together with its upstream route.
 */
module RelayTables {
  import opened Wrappers
  import opened JavaLang
  import opened AddrPort
  import opened Cells
  import opened Crypto

  datatype Tables = Tables(
    key: map<CircId, Bytes>,    // keyTable: circID -> AES key from the handshake
    iv: map<CircId, string>,    // ivTable: circID -> last IV received on it
    inT: map<CircId, string>,   // inTable: circID -> upstream "addr:port"
    out: map<CircId, string>,   // outTable: outCircID -> downstream "addr:port"
    ask: map<CircId, CircId>)   // askTable: outCircID -> inbound circID

  const Empty := Tables(map[], map[], map[], map[], map[])

  /**
   * What every handler keeps: a circuit has a key exactly when its upstream
   * route is known, and an IV only for such a circuit.
   */
  ghost predicate Valid(t: Tables) {
    t.key.Keys == t.inT.Keys && t.iv.Keys <= t.inT.Keys
  }

  /** The plaintext of an inbound Relay cell; `None` when there is no key or decryption or parsing fails. */
  function Opened(cs: Suite, t: Tables, circID: CircId, iv: string, ct: string): Option<RelaySecret> {
    if circID in t.key then cs.decrypt(ct, t.key[circID], iv) else None
  }

  /**
   * On a valid relay, an inbound Relay cell on a circuit it knows fails to
   * open only because decryption fails, never for want of a key.
   */
  lemma ValidOpens(cs: Suite, t: Tables, circID: CircId, iv: string, ct: string)
    requires Valid(t) && circID in t.inT
    ensures circID in t.key
    ensures Opened(cs, t, circID, iv, ct) == cs.decrypt(ct, t.key[circID], iv)
  {
  }

  datatype HandshakeOutcome =
    | Rejected                                // gX could not be unwrapped
    | Aborted                                 // gX is not a usable EC public value
    | Accepted(secret: Bytes, kHash: string)  // shared secret and its confirmation hash

  /** The relay half of the ECDH handshake for a Create cell. */
  function Handshake(cs: Suite, encryptedSymKey: string, gX: string, eph: KeyPair): (h: HandshakeOutcome)
    ensures h.Rejected? <==> cs.decryptHybrid(encryptedSymKey, gX).None?
    ensures h.Accepted? <==> cs.decryptHybrid(encryptedSymKey, gX).Some?
                             && cs.agree(eph.priv, cs.decryptHybrid(encryptedSymKey, gX).value).Some?
    ensures h.Accepted? ==> cs.agree(eph.priv, cs.decryptHybrid(encryptedSymKey, gX).value) == Some(h.secret)
                            && h.kHash == cs.confirm(h.secret)
  {
    match cs.decryptHybrid(encryptedSymKey, gX)
    case None => Rejected
    case Some(gx) =>
      match cs.agree(eph.priv, gx)
      case None => Aborted
      case Some(k) => Accepted(k, cs.confirm(k))
  }

  datatype PackFailure =
    | NoAskEntry  // no askTable entry: the method returns null
    | Thrown      // no IV, or an IV that is not Base64: the method throws
    | NullResult  // no key, or encryption failed: the method returns null

  /**
   * `packageInRelayCell(obj, circID)`: wrap `obj` as RelaySecret("", 0, obj),
   * encrypted under circuit `circID`'s key and last IV, in a Relay cell on
   * that circuit carrying that IV.
   */
  function PackageJson(cs: Suite, t: Tables, obj: Json, circID: CircId): (r: Result<Cell, PackFailure>)
    ensures r.Success? <==> circID in t.iv && circID in t.key && cs.decodeIV(t.iv[circID]).Some?
                            && cs.encrypt(RelaySecret("", 0, obj), t.key[circID], cs.decodeIV(t.iv[circID]).value).Some?
    ensures r.Success? ==> r.value.Relay? && r.value.circID == circID && r.value.iv == t.iv[circID]
    ensures r.Failure? ==> r.error != NoAskEntry
    ensures r.Failure? ==> (r.error == Thrown <==> circID !in t.iv || cs.decodeIV(t.iv[circID]).None?)
  {
    if circID !in t.iv then Failure(Thrown)
    else
      match cs.decodeIV(t.iv[circID])
      case None => Failure(Thrown)
      case Some(raw) =>
        if circID !in t.key then Failure(NullResult)
        else
          match cs.encrypt(RelaySecret("", 0, obj), t.key[circID], raw)
          case None => Failure(NullResult)
          case Some(ct) => Success(Relay(circID, t.iv[circID], ct))
  }

  /**
   * `packageInRelayCell(cell)`: a cell coming back on an outbound circuit is
   * re-wrapped for the inbound circuit that askTable maps it to.
   */
  function PackageInRelayCell(cs: Suite, t: Tables, cell: Cell): (r: Result<Cell, PackFailure>)
    requires !cell.Data?
    ensures r == Failure(NoAskEntry) <==> cell.circID !in t.ask
    ensures cell.circID in t.ask ==>
              var up := t.ask[cell.circID];
              (r.Success? <==> up in t.iv && up in t.key && cs.decodeIV(t.iv[up]).Some?
                               && cs.encrypt(RelaySecret("", 0, CellJson(cell)), t.key[up], cs.decodeIV(t.iv[up]).value).Some?)
    ensures cell.circID in t.ask && r.Failure? ==>
              var up := t.ask[cell.circID];
              (r.error == Thrown <==> up !in t.iv || cs.decodeIV(t.iv[up]).None?)
    ensures r.Success? ==> r.value.Relay? && r.value.circID == t.ask[cell.circID]
                           && t.ask[cell.circID] in t.iv && r.value.iv == t.iv[t.ask[cell.circID]]
  {
    if cell.circID !in t.ask then Failure(NoAskEntry)
    else PackageJson(cs, t, CellJson(cell), t.ask[cell.circID])
  }

  /**
   * Send a packaged Relay cell to the inTable address of its circuit; `None`
   * where the handler dies instead (null package, no inTable entry, an
   * entry that does not split into address and port, or a port a socket
   * refuses).
   */
  function RouteUpstream(t: Tables, packaged: Result<Cell, PackFailure>): (s: Option<Send>)
    ensures s.Some? ==> packaged.Success? && packaged.value.Relay? && s.value.msg == CellJson(packaged.value)
                        && packaged.value.circID in t.inT
                        && Split(t.inT[packaged.value.circID]) == Some(Endpoint(s.value.addr, s.value.port))
                        && SocketPort(s.value.port)
    ensures (packaged.Success? && packaged.value.Relay? && packaged.value.circID in t.inT
             && Split(t.inT[packaged.value.circID]).Some?
             && SocketPort(Split(t.inT[packaged.value.circID]).value.port)) ==> s.Some?
  {
    if packaged.Failure? || !packaged.value.Relay? || packaged.value.circID !in t.inT then None
    else
      match Split(t.inT[packaged.value.circID])
      case None => None
      case Some(ep) => if SocketPort(ep.port) then Some(Send(CellJson(packaged.value), ep.addr, ep.port)) else None
  }

  /** The return-path message for a cell arriving on an outbound circuit (doCreated, and doRelay going back). */
  function ReturnSend(cs: Suite, t: Tables, cell: Cell): Option<Send>
    requires !cell.Data?
  {
    RouteUpstream(t, PackageInRelayCell(cs, t, cell))
  }

  /** The messages an optional send contributes. */
  function SendsOf(s: Option<Send>): (r: seq<Send>)
    ensures s.None? <==> r == []
  {
    if s.Some? then [s.value] else []
  }

  /**
   * A packaged reply opens, under the same circuit's key and IV, to the
   * object it wraps (given that AES-CBC round-trips).
   */
  lemma PackagedOpens(cs: Suite, t: Tables, obj: Json, circID: CircId)
    requires RoundTrips(cs)
    requires PackageJson(cs, t, obj, circID).Success?
    ensures var rc := PackageJson(cs, t, obj, circID).value;
            Opened(cs, t, circID, rc.iv, rc.relaySecret) == Some(RelaySecret("", 0, obj))
  {
    var raw := cs.decodeIV(t.iv[circID]).value;
    assert cs.decodeIV(t.iv[circID]) == Some(raw);
    assert cs.encrypt(RelaySecret("", 0, obj), t.key[circID], raw).Some?;
  }

  /**
   * What a cell coming back on outbound circuit `o` turns into: a Relay cell
   * on the inbound circuit askTable[o], carrying that circuit's IV, sent to
   * that circuit's upstream address, whose payload the holder of that
   * circuit's key opens to recover the original cell.
   */
  lemma ReturnPathOpens(cs: Suite, t: Tables, cell: Cell)
    requires RoundTrips(cs)
    requires !cell.Data? && ReturnSend(cs, t, cell).Some?
    ensures cell.circID in t.ask
    ensures var up := t.ask[cell.circID];
            var s := ReturnSend(cs, t, cell).value;
            && s.msg.CellJson? && s.msg.cell.Relay?
            && s.msg.cell.circID == up && up in t.iv && s.msg.cell.iv == t.iv[up]
            && up in t.inT && Split(t.inT[up]) == Some(Endpoint(s.addr, s.port))
            && Opened(cs, t, up, s.msg.cell.iv, s.msg.cell.relaySecret) == Some(RelaySecret("", 0, CellJson(cell)))
  {
    var p := PackageInRelayCell(cs, t, cell);
    assert p.Success?;
    PackagedOpens(cs, t, CellJson(cell), t.ask[cell.circID]);
  }
}
