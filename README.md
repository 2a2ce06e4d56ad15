# Onion routing: relay circuit tables and client circuit construction

A Dafny model of the two halves of a small onion-routing network.

**Relay side.** One relay (`OnionRouterService`) keeps five circuit tables:

- `keyTable`: circID → AES key
- `ivTable`: circID → last IV
- `inTable`: circID → upstream "addr:port"
- `outTable`: outbound circID → downstream "addr:port"
- `askTable`: outbound circID → inbound circID

It handles one cell at a time:

- **Create** runs the ECDH handshake and registers the circuit.
- **Relay** is opened and forwarded one hop further away from the client. If its circID is only known as an outbound circuit, it is re-wrapped and sent back towards the client.
- **Created** is re-wrapped and sent back.
- **Destroy** sends a Destroy down every outbound circuit registered for the destroyed one, then purges the tables.

The relay is the class `RouterService.OnionRouter`. It has the five tables as `map` fields. Every message it writes to a socket is appended to `sends` as (message, address, port). The read-only parts are functions over a `Tables` value (module `RelayTables`):

- the handshake;
- opening a Relay cell;
- both `packageInRelayCell` overloads;
- the upstream route.

The Destroy loop over `askTable` and its specification live in module `DestroyCascade`. The "addr:port" strings, `Integer.toString`/`Integer.parseInt` and `equalsIgnoreCase` are modelled in `AddrPort` and `JavaLang`.

**Client side.** The onion proxy (`Proxy.OnionProxy`) does four things:

- It draws 3 relays from the configured pool, in the order of a shuffle.
- It builds one Create cell per relay, all carrying the proxy's circID.
- It nests Create cell *i* inside *i* Relay layers. Message *i* names circuit[1] … circuit[i] as its layer addresses, outermost first. Relays that each opened one layer and forwarded the rest to the address it names would carry it from circuit[0] to circuit[i]. The original only builds and prints these messages; it does not send them.
- It returns the entry relay, `circuit[0]`, where every message is sent.

**Crash paths.** Some handlers in the original die on an unchecked exception:

- a null table lookup;
- a null `RelaySecret` after a failed decryption;
- a null packaged cell;
- an "addr:port" string that does not parse;
- a socket opened to a port outside 0 … 65535. `new Socket` throws IllegalArgumentException there, which the `catch (IOException e)` blocks do not catch. No message is written, and a Destroy loop stops before its purges.

The model does not turn these into preconditions. The handler's method stops at that point. The table updates it made before the failure stay, and nothing more is sent. For example, a Relay cell that fails to decrypt still leaves its IV in `ivTable`.

## Model

| member | source | states |
|---|---|---|
| JavaLang.ParseIntToString | src/onionrouting/OnionRouterService.java:212-215 | `Integer.parseInt` of what `Integer.toString` printed gives back the same `int`, so the port written into an "addr:port" string is the port read back |
| AddrPort.Split | src/onionrouting/OnionRouterService.java:212-215 | the address read back is the colon-free text before the first colon of the stored string; a string with no colon yields no endpoint (Java throws) |
| AddrPort.SplitEncode | src/onionrouting/OnionRouterService.java:179 | reading back `addr + ":" + port` with `split(":")`/`parseInt` recovers exactly (addr, port) for every colon-free address |
| AddrPort.SplitColonAddress | src/onionrouting/OnionRouterService.java:212-215 | the IPv6 literal "::1" is stored as "::1:port" but cannot be read back: segment 1 is empty and `Integer.parseInt` of it throws, for every port |
| AddrPort.SplitMisreadsColonAddress | src/onionrouting/OnionRouterService.java:212-215 | other colon addresses are misread without any error: "1:2" stored with port 80 reads back as host "1", port 2 |
| RelayTables.Handshake | src/onionrouting/OnionRouterService.java:243-278 | the handshake is rejected exactly when hybrid decryption of gX fails; it is accepted exactly when that succeeds and ECDH of the fresh private key with the unwrapped gX succeeds (otherwise it aborts); when accepted, the secret is that ECDH result and the confirmation hash is the hash of that secret |
| RelayTables.PackageJson | src/onionrouting/OnionRouterService.java:412-431 | packaging succeeds exactly when the circuit has an IV that decodes, a key, and encryption succeeds; the result is a Relay cell on that same circuit carrying that circuit's stored IV; failure is a throw exactly when the circuit has no IV or its IV is not Base64, otherwise a null, never a missing askTable entry |
| RelayTables.PackageInRelayCell | src/onionrouting/OnionRouterService.java:378-403 | the result is the missing-askTable-entry null exactly when askTable has no entry for the cell's circID; otherwise it succeeds exactly when circuit askTable[circID] has an IV that decodes and a key, and encryption of RelaySecret("", 0, cell) succeeds, and fails with a null when there is no key or encryption fails, a throw when the IV is missing or not Base64; on success a Relay cell on circuit askTable[circID] carrying that circuit's IV; it is a function of the tables, so no table changes |
| RelayTables.ValidOpens | src/onionrouting/OnionRouterService.java:147-158 | on tables where every inTable circuit has a key (what doCreate establishes and every handler keeps), an inbound Relay cell fails to open only when decryption fails, never for want of a key |
| RelayTables.RouteUpstream | src/onionrouting/OnionRouterService.java:211-218 | a packaged cell is sent exactly when packaging succeeded, the inTable entry of its circuit splits into an endpoint, and that endpoint's port is one a socket accepts; it is sent to that endpoint |
| RelayTables.PackagedOpens | src/onionrouting/OnionRouterService.java:420-430 | when AES-CBC round-trips, a packaged reply opens under its circuit's key and IV to RelaySecret("", 0, obj) |
| RelayTables.ReturnPathOpens | src/onionrouting/OnionRouterService.java:207-218 | a cell coming back on an outbound circuit leaves as a Relay cell on the inbound circuit askTable names, with that circuit's IV, to that circuit's inTable address; the holder of that circuit's key opens it to the original cell |
| DestroyCascade.MatchingMembers | src/onionrouting/OnionRouterService.java:340-347 | an id is collected by the askTable scan exactly when it is an iterated key whose value equals the destroyed id ignoring case |
| DestroyCascade.MatchingIsDoomed | src/onionrouting/OnionRouterService.java:340-347 | over a full iteration of askTable, the collected ids are exactly the keys whose value names the destroyed circuit |
| DestroyCascade.MatchingDistinct | src/onionrouting/OnionRouterService.java:340-347 | an iteration visiting each key once collects each matching key once |
| DestroyCascade.DestroySendsShape | src/onionrouting/OnionRouterService.java:349-356 | the Destroy cells sent are a prefix of the matching ids, each a Destroy(outId) to outTable[outId]; the loop completes exactly when every matching id has a usable outTable entry (present, splitting into an endpoint, with a port a socket accepts), and otherwise stops at the first one that has none |
| DestroyCascade.RefusedPortStopsCascade | src/onionrouting/OnionRouterService.java:350-356 | a matching outbound circuit stored as "h:70000" gets no Destroy written, and the cascade stops there without completing, because `new Socket` refuses the port |
| DestroyCascade.Cascade | src/onionrouting/OnionRouterService.java:335-358 | the loop over askTable emits exactly the Destroy sends above and, when it completes, has collected exactly the matching ids |
| DestroyCascade.OnePerDoomedCircuit | src/onionrouting/OnionRouterService.java:340-357 | a completed cascade sends exactly one Destroy per doomed outbound circuit, each to that circuit's outTable address, no two alike, and nothing else |
| DestroyCascade.SecondDestroyStalls | src/onionrouting/OnionRouterService.java:360-365 | because askTable loses key circID, not the doomed outbound keys, their askTable entries survive while their outTable entries go; a second Destroy of the same circuit then dies before purging anything |
| RouterService.OnionRouter.DoCreate | src/onionrouting/OnionRouterService.java:238-287 | failed gX decryption sends one Created("", "", "") to srcAddr:srcPort and changes no table; an unusable gX stops with no change; success sets keyTable[circID] to the secret and inTable[circID] to srcAddr + ":" + srcPort and replies Created(circID, gY, kHash) to the source; a reply to a port a socket refuses is not written (the table updates before it stay); no other entry changes; the table invariant is kept |
| RouterService.OnionRouter.SendUpstream | src/onionrouting/OnionRouterService.java:207-218 | the return leg sends the re-wrapped cell to its inbound circuit's upstream address, or nothing where the original dies, and changes no table |
| RouterService.OnionRouter.ExitToServer | src/onionrouting/OnionRouterService.java:562-596 | nothing is sent when the server's port is one a socket refuses; otherwise the payload goes to the server, and its reply, if any, is packaged for the circuit and sent to that circuit's inTable address |
| RouterService.OnionRouter.DoRelay | src/onionrouting/OnionRouterService.java:142-222 | a circID in inTable is inbound even if it is also in outTable: ivTable[circID] := iv first, then per child: a Create registers outTable[o] = addr:port and askTable[o] = circID and is forwarded with this relay as source; a Data child goes to its server; others are forwarded; a forward to a port a socket refuses is not written; a failed decryption sends nothing; a circID only in outTable takes the return leg; a circID in neither changes nothing and sends nothing; keyTable and inTable never change |
| RouterService.OnionRouter.DoCreated | src/onionrouting/OnionRouterService.java:298-310 | a Created cell takes the return leg and changes no table |
| RouterService.OnionRouter.DoDestroy | src/onionrouting/OnionRouterService.java:317-366 | no circID: no change and no send; otherwise one Destroy per matching askTable entry, in iteration order, to its outTable address; on completion circID leaves keyTable, ivTable, inTable and askTable, the doomed ids leave outTable, and every other entry (including askTable entries keyed by the doomed ids) stays; if the loop dies, the sends so far stay and no table changes |
| Proxy.Wrap | src/mackyack_client/OnionProxy.java:157-166 | wrapping in the relays `hops` adds exactly one layer per relay, addressed in order from the outside in, with the given circID on each layer, around the unchanged core |
| Proxy.PathOfWrap | src/mackyack_client/OnionProxy.java:157-166 | the relay a wrapped Create cell is addressed to, followed by the addresses its layers name, is that relay and then each wrapping hop in order, outermost first |
| Proxy.PermutationCovers | src/mackyack_client/OnionProxy.java:224 | a permutation of the positions below n, having n distinct values all below n, uses every position below n |
| Proxy.Shuffled | src/mackyack_client/OnionProxy.java:220-224 | the shuffled copy is a rearrangement of the pool: it has the pool's length, and a router is in the copy exactly when it is in the pool |
| Proxy.CircuitDrawnFromPool | src/mackyack_client/OnionProxy.java:221-228 | the chosen 3 routers are the pool entries at 3 distinct pool positions, so they are distinct routers whenever the pool lists each router once |
| Proxy.OnionProxy.constructor | src/mackyack_client/OnionProxy.java:62-65 | the proxy starts with its drawn circID and an empty circuit |
| Proxy.OnionProxy.EntryRouter | src/mackyack_client/OnionProxy.java:54-56 | the entry router is circuit[0] |
| Proxy.OnionProxy.Send | src/mackyack_client/OnionProxy.java:98-109 | every message goes to the entry router's address and port, and nothing is written when that port is one a socket refuses |
| Proxy.OnionProxy.ConstructCircuit | src/mackyack_client/OnionProxy.java:215-229 | fails, leaving the circuit unchanged, exactly when the list is missing or has fewer than 3 routers; otherwise appends exactly the first 3 routers of the shuffled pool |
| Proxy.OnionProxy.ConstructCreateCells | src/mackyack_client/OnionProxy.java:176-209 | one Create cell per circuit router, in circuit order, each with the proxy's circID, that hop's gX ciphertext and an empty encrypted symmetric key |
| Proxy.OnionProxy.CreateRelays | src/mackyack_client/OnionProxy.java:150-174 | as many messages as Create cells; message 0 is Create cell 0 unwrapped; message i is exactly i layers deep, addressed from the outside in to circuit[1] … circuit[i] (never circuit[0]), every layer with the proxy's circID, around Create cell i; circuit[0] followed by its layer addresses is circuit[0] … circuit[i], the relays that would carry it if each opened one layer and forwarded the rest |
| Proxy.OnionProxy.Initialise | src/mackyack_client/OnionProxy.java:62-77 | start-up fails exactly when constructCircuit throws; otherwise the circuit is the first 3 shuffled routers, and message i carries hop i's Create cell under layers whose addresses, after circuit[0], are circuit[1] … circuit[i], every layer with the proxy's circID |

## Left out

- Sockets, the per-connection `run` dispatch and its line read, and the proxy's `pollProxy` listener. Every send is appended to an output sequence instead. The exit server's answer is a parameter: `None` stands for an IOException or an unreadable reply.
- Threads and concurrency: the per-connection threads and races on the shared static tables. The tables are fields of one object, and handlers run one at a time.
- Cryptography (ElGamal, AES-CBC/PKCS5Padding, ECDH over a 256-bit curve, SHA3-256, Base64). These are foreign library calls, so they are function values in `Crypto.Suite`; every call that can throw returns an `Option`. AES-CBC round-tripping is the hypothesis `RoundTrips`, not a fact.
- JSON parsing and serialisation, and the cell classes. Cells are a datatype. An object the relay does not interpret, including a DATA object whose fields do not parse, is opaque text that is only forwarded.
- Randomness: the proxy's circID, `Collections.shuffle` (given as a permutation) and the relay's fresh EC key pair (given as a parameter).
- The HashMap iteration order of `askTable` is a parameter `order` that lists each key once.
- src/mackyack_server/MackYackServer.java: command-line options, configuration files and key bootstrap. It has no protocol logic.
- The client's handling of Created cells, and key agreement on the client. The original leaves both as a TODO.
- JavaLang.EqualsIgnoreCase: folds ASCII letters only, not the full Unicode case mapping of `String.equalsIgnoreCase`.
- JavaLang.ParseInt: accepts ASCII digits only, whereas `Integer.parseInt` also accepts other Unicode decimal digits.
- AddrPort.SplitEncode: holds only for addresses without a colon. SplitColonAddress shows that "::1" is not read back, and SplitMisreadsColonAddress shows that "1:2" is read back as a different endpoint.
- Proxy.PathOfWrap: `Path` lists the addresses the layers name, and assumes each relay opens one layer and forwards the rest to that address. Nothing proves a relay does so. The original never sends these messages: its constructor only prints them, and `send` has no caller. Every Create cell also carries an empty encrypted symmetric key, so a relay's hybrid decryption fails, it answers with an empty Created and registers nothing, and relay 0 drops the next message.
- Proxy.Shuffled: states that the copy has the pool's length and the same routers, not that the two lists are equal as multisets (CircuitDrawnFromPool states that the chosen positions are distinct).
- Proxy.OnionProxy.CreateRelays: requires at least one Create cell and no more than the circuit has relays. On other input the original throws IndexOutOfBoundsException; its one caller always passes one cell per relay.
- Proxy.OnionProxy.ConstructCreateCells: the hop's gX ciphertext is a parameter, because it comes from a fresh EC key pair and hybrid encryption.
- RouterService.OnionRouter.ExitToServer: records the payload as sent even when the connection to the server fails; the reply parameter is then `None`.
