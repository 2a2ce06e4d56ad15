/**
 * One onion relay: the five circuit tables (process-wide static maps in the
 * original, fields of one object here) and the handlers that run for each
 * received cell. Every message the relay writes to a socket is appended to
 * `sends` instead. Where a handler in the original dies on an unchecked
 * exception (a null lookup, a failed parse), the method stops at that
 * point: the table updates made before it stay, and nothing more is sent.
 */
module RouterService {
  import opened Wrappers
  import opened JavaLang
  import opened AddrPort
  import opened Cells
  import opened Crypto
  import opened RelayTables
  import opened DestroyCascade

  class OnionRouter {
    const addr: string      // this relay's own address, written into forwarded Create cells
    const port: JInt        // this relay's own port
    const crypto: Suite     // the relay's private key and the JCE/BouncyCastle calls

    var keyTable: map<CircId, Bytes>
    var ivTable: map<CircId, string>
    var inTable: map<CircId, string>
    var outTable: map<CircId, string>
    var askTable: map<CircId, CircId>
    var sends: seq<Send>

    function Tables(): Tables
      reads this
    {
      RelayTables.Tables(keyTable, ivTable, inTable, outTable, askTable)
    }

    ghost predicate Valid()
      reads this
    {
      RelayTables.Valid(Tables())
    }

    constructor (addr: string, port: JInt, crypto: Suite)
      ensures this.addr == addr && this.port == port && this.crypto == crypto
      ensures Tables() == Empty && sends == [] && Valid()
    {
      this.addr, this.port, this.crypto := addr, port, crypto;
      keyTable, ivTable, inTable, outTable, askTable := map[], map[], map[], map[], map[];
      sends := [];
    }

    /**
     * doCreate: unwrap gX and run the ECDH handshake with the fresh key
     * pair `eph`. If gX cannot be unwrapped, answer the sender with an
     * all-empty Created cell and change nothing. If gX is not a usable EC
     * value, stop. Otherwise remember the key and the sender's
     * "addr:port" under the cell's circID and answer with Created(gY, kHash).
     */
    method DoCreate(cell: Cell, eph: KeyPair)
      requires cell.Create?
      modifies this
      ensures old(Valid()) ==> Valid()
      ensures ivTable == old(ivTable) && outTable == old(outTable) && askTable == old(askTable)
      ensures match Handshake(crypto, cell.encryptedSymKey, cell.gX, eph)
              case Rejected =>
                && keyTable == old(keyTable) && inTable == old(inTable)
                && sends == old(sends) + Written(Send(CellJson(Created("", "", "")), cell.srcAddr, cell.srcPort))
              case Aborted =>
                keyTable == old(keyTable) && inTable == old(inTable) && sends == old(sends)
              case Accepted(secret, kHash) =>
                && keyTable == old(keyTable)[cell.circID := secret]
                && inTable == old(inTable)[cell.circID := Encode(cell.srcAddr, cell.srcPort)]
                && sends == old(sends) + Written(Send(CellJson(Created(cell.circID, eph.pub, kHash)), cell.srcAddr, cell.srcPort))
    {
      var gx := crypto.decryptHybrid(cell.encryptedSymKey, cell.gX);
      if gx.None? {
        sends := sends + Written(Send(CellJson(Created("", "", "")), cell.srcAddr, cell.srcPort));
        return;
      }
      var secret := crypto.agree(eph.priv, gx.value);
      if secret.None? {
        return;
      }
      var kHash := crypto.confirm(secret.value);
      keyTable := keyTable[cell.circID := secret.value];
      inTable := inTable[cell.circID := Encode(cell.srcAddr, cell.srcPort)];
      sends := sends + Written(Send(CellJson(Created(cell.circID, eph.pub, kHash)), cell.srcAddr, cell.srcPort));
    }

    /**
     * The return leg shared by doCreated and the outbound branch of doRelay:
     * re-wrap `cell` for the inbound circuit askTable maps it to and send it
     * to that circuit's upstream address.
     */
    method SendUpstream(cell: Cell)
      requires !cell.Data?
      modifies this`sends
      ensures sends == old(sends) + SendsOf(ReturnSend(crypto, Tables(), cell))
    {
      var packaged := PackageInRelayCell(crypto, Tables(), cell);
      if packaged.Failure? {
        return;
      }
      var retCell := packaged.value;
      if retCell.circID !in inTable {
        return;
      }
      var dest := Split(inTable[retCell.circID]);
      if dest.None? || !SocketPort(dest.value.port) {
        return;
      }
      sends := sends + [Send(CellJson(retCell), dest.value.addr, dest.value.port)];
    }

    /**
     * sendToServer on the exit relay: hand `payload` to the server and, if
     * it answers with `reply`, wrap the reply for circuit `circID` and send
     * it upstream.
     */
    method ExitToServer(payload: Json, serverAddr: string, serverPort: JInt, circID: CircId, reply: Option<Json>)
      modifies this`sends
      ensures sends == old(sends)
                       + (if !SocketPort(serverPort) then []
                          else [Send(payload, serverAddr, serverPort)]
                               + (if reply.None? then [] else SendsOf(RouteUpstream(Tables(), PackageJson(crypto, Tables(), reply.value, circID)))))
    {
      if !SocketPort(serverPort) {
        return;
      }
      sends := sends + [Send(payload, serverAddr, serverPort)];
      if reply.None? {
        return;
      }
      var packaged := PackageJson(crypto, Tables(), reply.value, circID);
      if packaged.Failure? || circID !in inTable {
        return;
      }
      var dest := Split(inTable[circID]);
      if dest.None? || !SocketPort(dest.value.port) {
        return;
      }
      sends := sends + [Send(CellJson(packaged.value), dest.value.addr, dest.value.port)];
    }

    /**
     * doRelay. A circID in inTable means the cell travels away from the
     * client (this wins even if the id is also in outTable): record its IV,
     * open it, and act on the child. A Create child registers the outbound
     * circuit in outTable and askTable and is forwarded with this relay as
     * its source; a Data child goes to its server, whose reply `reply` is
     * wrapped and sent back; any other child is forwarded unchanged. A
     * circID only in outTable means the cell travels back: it takes the
     * return leg. Any other circID is dropped.
     */
    method DoRelay(cell: Cell, reply: Option<Json>)
      requires cell.Relay?
      modifies this
      ensures old(Valid()) ==> Valid()
      ensures keyTable == old(keyTable) && inTable == old(inTable)
      ensures cell.circID !in old(inTable) ==>
                && Tables() == old(Tables())
                && sends == old(sends) + (if cell.circID in old(outTable) then SendsOf(ReturnSend(crypto, old(Tables()), cell)) else [])
      ensures cell.circID in old(inTable) ==>
                && ivTable == old(ivTable)[cell.circID := cell.iv]
                && match Opened(crypto, old(Tables()), cell.circID, cell.iv, cell.relaySecret)
                   case None =>
                     outTable == old(outTable) && askTable == old(askTable) && sends == old(sends)
                   case Some(RelaySecret(a, p, CellJson(Create(o, esk, gx, _, _)))) =>
                     && outTable == old(outTable)[o := Encode(a, p)]
                     && askTable == old(askTable)[o := cell.circID]
                     && sends == old(sends) + Written(Send(CellJson(Create(o, esk, gx, addr, port)), a, p))
                   case Some(RelaySecret(_, _, CellJson(Data(sa, sp, payload)))) =>
                     && outTable == old(outTable) && askTable == old(askTable)
                     && sends == old(sends)
                                + (if !SocketPort(sp) then []
                                   else [Send(payload, sa, sp)]
                                        + (if reply.None? then []
                                           else SendsOf(RouteUpstream(Tables(), PackageJson(crypto, Tables(), reply.value, cell.circID)))))
                   case Some(RelaySecret(a, p, child)) =>
                     outTable == old(outTable) && askTable == old(askTable) && sends == old(sends) + Written(Send(child, a, p))
    {
      var circID := cell.circID;
      if circID in inTable {
        ivTable := ivTable[circID := cell.iv];
        var secret := Opened(crypto, Tables(), circID, cell.iv, cell.relaySecret);
        if secret.None? {
          return;
        }
        var a, p, child := secret.value.addr, secret.value.port, secret.value.child;
        if child.CellJson? && child.cell.Create? {
          var o := child.cell.circID;
          outTable := outTable[o := Encode(a, p)];
          askTable := askTable[o := circID];
          child := CellJson(child.cell.(srcAddr := addr, srcPort := port));
        } else if child.CellJson? && child.cell.Data? {
          ExitToServer(child.cell.child, child.cell.serverAddr, child.cell.serverPort, circID, reply);
          return;
        }
        sends := sends + Written(Send(child, a, p));
      } else if circID in outTable {
        SendUpstream(cell);
      }
    }

    /** doCreated: a Created cell always travels back, so it takes the return leg. */
    method DoCreated(cell: Cell)
      requires cell.Created?
      modifies this
      ensures Tables() == old(Tables())
      ensures sends == old(sends) + SendsOf(ReturnSend(crypto, old(Tables()), cell))
    {
      SendUpstream(cell);
    }

    /**
     * doDestroy of circuit `circID` (`None` for a cell without one), with
     * askTable iterated in `order`. Each askTable entry naming the circuit
     * (ignoring case) gets a Destroy sent to its outTable address; then
     * keyTable, ivTable, inTable and askTable lose the key `circID` and
     * outTable loses the matching outbound ids. If an outbound id has no
     * usable outTable entry the handler dies there: the Destroy cells sent
     * so far stay sent and no table changes.
     */
    method DoDestroy(circID: Option<CircId>, order: seq<CircId>)
      requires Enumerates(order, askTable)
      modifies this
      ensures circID.None? ==> Tables() == old(Tables()) && sends == old(sends)
      ensures circID.Some? ==>
                var c := circID.value;
                var r := DestroySends(Matching(order, old(askTable), c), old(outTable));
                && sends == old(sends) + r.0
                && (r.1 ==>
                      && keyTable == old(keyTable) - {c}
                      && ivTable == old(ivTable) - {c}
                      && inTable == old(inTable) - {c}
                      && askTable == old(askTable) - {c}
                      && outTable == old(outTable) - Doomed(old(askTable), c))
                && (!r.1 ==> Tables() == old(Tables()))
      ensures old(Valid()) ==> Valid()
    {
      if circID.None? {
        return;
      }
      var c := circID.value;
      var emitted, toRemove, complete := Cascade(order, askTable, outTable, c);
      sends := sends + emitted;
      if !complete {
        return;
      }
      MatchingIsDoomed(order, askTable, c);
      keyTable := keyTable - {c};
      ivTable := ivTable - {c};
      askTable := askTable - {c};
      inTable := inTable - {c};
      outTable := outTable - (set o | o in toRemove);
    }
  }
}
