/**
 * The client side ("onion proxy"): pick the circuit's relays, build one
 * Create cell per hop, and nest each Create cell in Relay layers so that it
 * reaches its hop through the hops before it. Every message goes to the
 * entry relay, circuit[0].
 */
module Proxy {
  import opened Wrappers
  import opened JavaLang

  /** How many relays a circuit uses (ROUTER_COUNT). */
  const RouterCount: nat := 3

  datatype Router = Router(addr: string, port: JInt, publicKey: string)

  /** Where a message is delivered. */
  datatype Hop = Hop(addr: string, port: JInt)

  /** A Create cell as the client builds it: the circuit id, the wrapped gX, the wrapped symmetric key. */
  datatype CreateCell = CreateCell(circID: JInt, gX: string, encryptedSymKey: string)

  /**
   * A message for the entry relay: a bare Create cell, or a Relay layer
   * telling the relay that opens it to pass `child` on to addr:port.
   */
  datatype Onion =
    | Bare(create: CreateCell)
    | Layer(circID: JInt, addr: string, port: JInt, child: Onion)

  function HopOf(r: Router): Hop {
    Hop(r.addr, r.port)
  }

  function HopsOf(rs: seq<Router>): seq<Hop> {
    seq(|rs|, k requires 0 <= k < |rs| => HopOf(rs[k]))
  }

  /** Peeling the first router off a list peels its hop off the hop list. */
  lemma HopsOfCons(rs: seq<Router>)
    requires rs != []
    ensures HopsOf(rs) == [HopOf(rs[0])] + HopsOf(rs[1..])
  {
    assert forall k :: 0 <= k < |rs| ==> HopsOf(rs)[k] == ([HopOf(rs[0])] + HopsOf(rs[1..]))[k];
  }

  /** How many Relay layers surround the Create cell. */
  function Depth(m: Onion): nat {
    match m
    case Bare(_) => 0
    case Layer(_, _, _, child) => 1 + Depth(child)
  }

  /** The address of each layer, outermost first. */
  function Hops(m: Onion): seq<Hop> {
    match m
    case Bare(_) => []
    case Layer(_, a, p, child) => [Hop(a, p)] + Hops(child)
  }

  /** The Create cell at the centre. */
  function Core(m: Onion): CreateCell {
    match m
    case Bare(c) => c
    case Layer(_, _, _, child) => Core(child)
  }

  /** Every layer carries circuit id `circID`. */
  predicate LayersCarry(m: Onion, circID: JInt) {
    match m
    case Bare(_) => true
    case Layer(id, _, _, child) => id == circID && LayersCarry(child, circID)
  }

  /**
   * `at` followed by the addresses the layers of `m` name, outermost first:
   * the relays that would carry `m` if each opened one layer and passed the
   * child on to the address that layer names.
   */
  function Path(at: Hop, m: Onion): seq<Hop>
    decreases m
  {
    match m
    case Bare(_) => [at]
    case Layer(_, a, p, child) => [at] + Path(Hop(a, p), child)
  }

  /** `core` inside one Relay layer per router of `hops`, hops[0] outermost. */
  function Wrap(circID: JInt, hops: seq<Router>, core: Onion): (r: Onion)
    ensures Depth(r) == |hops| + Depth(core)
    ensures Hops(r) == HopsOf(hops) + Hops(core)
    ensures Core(r) == Core(core)
    ensures LayersCarry(r, circID) <==> LayersCarry(core, circID)
    decreases |hops|
  {
    if hops == [] then core
    else
      var inner := Wrap(circID, hops[1..], core);
      HopsOfCons(hops);
      assert Hops(Layer(circID, hops[0].addr, hops[0].port, inner)) == [HopOf(hops[0])] + Hops(inner);
      Layer(circID, hops[0].addr, hops[0].port, inner)
  }

  /** The layer addresses of a wrapped Create cell are the wrapping hops, in order, after `at`. */
  lemma {:induction false} PathOfWrap(at: Hop, circID: JInt, hops: seq<Router>, c: CreateCell)
    ensures Path(at, Wrap(circID, hops, Bare(c))) == [at] + HopsOf(hops)
    decreases |hops|
  {
    if hops != [] {
      PathOfWrap(HopOf(hops[0]), circID, hops[1..], c);
      HopsOfCons(hops);
    }
  }

  /** `perm` is a rearrangement of the positions 0 .. n-1. */
  predicate IsPermutation(perm: seq<nat>, n: nat) {
    && |perm| == n
    && (forall i :: 0 <= i < n ==> perm[i] < n)
    && (forall i, j :: 0 <= i < j < n ==> perm[i] != perm[j])
  }

  /** The positions 0 .. n-1. */
  function Below(n: nat): (r: set<nat>)
    ensures forall j: int :: j in r <==> 0 <= j < n
    ensures |r| == n
  {
    if n == 0 then {} else Below(n - 1) + {n - 1}
  }

  /** The values a sequence holds; as many as its length when it has no repeats. */
  function Values(s: seq<nat>): (r: set<nat>)
    ensures forall x :: x in r <==> x in s
    ensures (forall i, j :: 0 <= i < j < |s| ==> s[i] != s[j]) ==> |r| == |s|
  {
    if s == [] then {}
    else
      var init := s[..|s| - 1];
      assert s == init + [s[|s| - 1]];
      Values(init) + {s[|s| - 1]}
  }

  /** A subset is no larger than its superset. */
  lemma {:induction false} SubsetCard(a: set<nat>, b: set<nat>)
    requires a <= b
    ensures |a| <= |b|
    decreases |a|
  {
    if a != {} {
      var x :| x in a;
      SubsetCard(a - {x}, b - {x});
    }
  }

  /** A permutation of 0 .. n-1 uses every position below n. */
  lemma PermutationCovers(perm: seq<nat>, n: nat)
    requires IsPermutation(perm, n)
    ensures forall j :: 0 <= j < n ==> j in perm
  {
    forall j | 0 <= j < n
      ensures j in perm
    {
      if j !in perm {
        var rest := Below(n) - {j};
        assert Values(perm) <= rest;
        SubsetCard(Values(perm), rest);
        assert false;
      }
    }
  }

  /**
   * The pool reordered by `perm`: the effect of Collections.shuffle on a
   * copy. Position i holds pool[perm[i]], every pool position is used
   * exactly once, so the copy holds exactly the pool's routers.
   */
  function Shuffled(pool: seq<Router>, perm: seq<nat>): (s: seq<Router>)
    requires IsPermutation(perm, |pool|)
    ensures |s| == |pool|
    ensures forall x :: x in s <==> x in pool
  {
    PermutationCovers(perm, |pool|);
    var s := seq(|perm|, i requires 0 <= i < |perm| => pool[perm[i]]);
    assert forall x :: x in pool ==> x in s by {
      forall j | 0 <= j < |pool|
        ensures pool[j] in s
      {
        assert j in perm;
        var i :| 0 <= i < |perm| && perm[i] == j;
        assert s[i] == pool[j];
      }
    }
    s
  }

  /**
   * The routers a circuit is built from are the pool entries at the first
   * RouterCount positions of the permutation: distinct positions, so
   * distinct routers whenever the pool lists each router once.
   */
  lemma CircuitDrawnFromPool(pool: seq<Router>, perm: seq<nat>)
    requires IsPermutation(perm, |pool|) && |pool| >= RouterCount
    ensures var sel := Shuffled(pool, perm)[..RouterCount];
            && |sel| == RouterCount
            && (forall k :: 0 <= k < RouterCount ==> perm[k] < |pool| && sel[k] == pool[perm[k]])
            && (forall k, l :: 0 <= k < l < RouterCount ==> perm[k] != perm[l])
            && ((forall i, j :: 0 <= i < j < |pool| ==> pool[i] != pool[j]) ==>
                  forall k, l :: 0 <= k < l < RouterCount ==> sel[k] != sel[l])
  {
    var sel := Shuffled(pool, perm)[..RouterCount];
    if forall i, j :: 0 <= i < j < |pool| ==> pool[i] != pool[j] {
      forall k, l | 0 <= k < l < RouterCount ensures sel[k] != sel[l] {
        if perm[k] < perm[l] {
          assert pool[perm[k]] != pool[perm[l]];
        } else {
          assert pool[perm[l]] != pool[perm[k]];
        }
      }
    }
  }

  class OnionProxy {
    /** The circuit id the proxy drew at start-up, shared by all its cells. */
    const circID: JInt
    /** The relays of the circuit, entry relay first. */
    var circuit: seq<Router>
    /** Messages handed to the entry relay, with the address they went to. */
    var outbox: seq<(Onion, Hop)>

    constructor (circID: JInt)
      ensures this.circID == circID && circuit == [] && outbox == []
    {
      this.circID := circID;
      circuit, outbox := [], [];
    }

    /** getEntryRouter: the first relay of the circuit, where every message is sent. */
    function EntryRouter(): (r: Router)
      reads this
      requires |circuit| > 0
      ensures r == circuit[0]
    {
      circuit[0]
    }

    /**
     * send: hand a message to the entry relay. Nothing is written when the
     * entry relay's port is one a socket refuses (`new Socket` throws).
     */
    method Send(message: Onion)
      requires |circuit| > 0
      modifies this`outbox
      ensures SocketPort(EntryRouter().port) ==> outbox == old(outbox) + [(message, HopOf(EntryRouter()))]
      ensures !SocketPort(EntryRouter().port) ==> outbox == old(outbox)
    {
      var entry := EntryRouter();
      if SocketPort(entry.port) {
        outbox := outbox + [(message, HopOf(entry))];
      }
    }

    /**
     * constructCircuit: fail if there is no router list or it has fewer
     * than RouterCount routers; otherwise append the first RouterCount
     * routers of the list shuffled by `perm`.
     */
    method ConstructCircuit(routers: Option<seq<Router>>, perm: seq<nat>) returns (ok: bool)
      requires routers.Some? ==> IsPermutation(perm, |routers.value|)
      modifies this`circuit
      ensures ok <==> routers.Some? && |routers.value| >= RouterCount
      ensures !ok ==> circuit == old(circuit)
      ensures ok ==> circuit == old(circuit) + Shuffled(routers.value, perm)[..RouterCount]
    {
      if routers.None? || |routers.value| < RouterCount {
        return false;
      }
      var copy := Shuffled(routers.value, perm);
      for i := 0 to RouterCount
        invariant circuit == old(circuit) + copy[..i]
      {
        circuit := circuit + [copy[i]];
      }
      ok := true;
    }

    /**
     * constructCreateCells: one Create cell per relay of the circuit, in
     * circuit order, all with the proxy's circID. `gXs[i]` is the
     * hybrid-encrypted fresh EC public value for hop i; the wrapped
     * symmetric key is left empty, as the original does.
     */
    method ConstructCreateCells(gXs: seq<string>) returns (cells: seq<CreateCell>)
      requires |gXs| == |circuit|
      ensures |cells| == |circuit|
      ensures forall i :: 0 <= i < |cells| ==> cells[i] == CreateCell(circID, gXs[i], "")
    {
      cells := [];
      for i := 0 to |circuit|
        invariant |cells| == i
        invariant forall k :: 0 <= k < i ==> cells[k] == CreateCell(circID, gXs[k], "")
      {
        cells := cells + [CreateCell(circID, gXs[i], "")];
      }
    }

    /**
     * createRelays: message 0 is the entry relay's Create cell as it is;
     * message i > 0 is Create cell i inside i Relay layers addressed, from
     * the outside in, to circuit[1] .. circuit[i]; with circuit[0] in front,
     * these are the relays that would carry it if each opened one layer.
     */
    method CreateRelays(createCells: seq<CreateCell>) returns (msgs: seq<Onion>)
      requires |createCells| >= 1
      requires |createCells| <= |circuit|
      ensures |msgs| == |createCells|
      ensures msgs[0] == Bare(createCells[0])
      ensures forall i :: 0 <= i < |msgs| ==>
                && Depth(msgs[i]) == i
                && Hops(msgs[i]) == HopsOf(circuit[1..i + 1])
                && Core(msgs[i]) == createCells[i]
                && LayersCarry(msgs[i], circID)
      ensures forall i :: 0 <= i < |msgs| ==> Path(HopOf(circuit[0]), msgs[i]) == HopsOf(circuit[..i + 1])
    {
      msgs := [Bare(createCells[0])];
      assert circuit[..1] == [circuit[0]];
      for i := 1 to |createCells|
        invariant |msgs| == i
        invariant forall k :: 0 <= k < i ==> msgs[k] == Wrap(circID, circuit[1..k + 1], Bare(createCells[k]))
      {
        var relayCell := Layer(circID, circuit[i].addr, circuit[i].port, Bare(createCells[i]));
        assert relayCell == Wrap(circID, circuit[i..i + 1], Bare(createCells[i]));
        if i > 1 {
          var j := i - 1;
          while j > 0
            invariant 0 <= j <= i - 1
            invariant relayCell == Wrap(circID, circuit[j + 1..i + 1], Bare(createCells[i]))
          {
            assert circuit[j..i + 1][1..] == circuit[j + 1..i + 1];
            relayCell := Layer(circID, circuit[j].addr, circuit[j].port, relayCell);
            j := j - 1;
          }
        }
        msgs := msgs + [relayCell];
      }
      forall i | 0 <= i < |msgs|
        ensures Path(HopOf(circuit[0]), msgs[i]) == HopsOf(circuit[..i + 1])
      {
        PathOfWrap(HopOf(circuit[0]), circID, circuit[1..i + 1], createCells[i]);
        HopsOfCons(circuit[..i + 1]);
        assert circuit[..i + 1][1..] == circuit[1..i + 1];
      }
    }

    /**
     * What the proxy's constructor does after drawing its circID: build
     * the circuit, its Create cells and the onion messages. `None` where
     * constructCircuit throws.
     */
    method Initialise(routers: Option<seq<Router>>, perm: seq<nat>, gXs: seq<string>)
      returns (msgs: Option<seq<Onion>>)
      requires circuit == []
      requires routers.Some? ==> IsPermutation(perm, |routers.value|)
      requires |gXs| == RouterCount
      modifies this`circuit
      ensures msgs.Some? <==> routers.Some? && |routers.value| >= RouterCount
      ensures msgs.None? ==> circuit == []
      ensures msgs.Some? ==>
                && circuit == Shuffled(routers.value, perm)[..RouterCount]
                && |msgs.value| == RouterCount
                && forall i :: 0 <= i < RouterCount ==>
                     && Path(HopOf(circuit[0]), msgs.value[i]) == HopsOf(circuit[..i + 1])
                     && Core(msgs.value[i]) == CreateCell(circID, gXs[i], "")
                     && LayersCarry(msgs.value[i], circID)
    {
      var ok := ConstructCircuit(routers, perm);
      if !ok {
        return None;
      }
      var cells := ConstructCreateCells(gXs);
      var onions := CreateRelays(cells);
      msgs := Some(onions);
    }
  }
}
