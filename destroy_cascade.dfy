/**
 * The Destroy cascade: which outbound circuits a Destroy reaches (askTable
 * entries whose inbound id equals the destroyed id, ignoring case) and the
 * Destroy cells the relay emits for them, in askTable iteration order.
 */
module DestroyCascade {
  import opened Wrappers
  import opened JavaLang
  import opened AddrPort
  import opened Cells

  /** An askTable value names the destroyed circuit: `inId.equalsIgnoreCase(circID)`. */
  predicate Matches(inId: CircId, c: CircId) {
    EqualsIgnoreCase(inId, c)
  }

  predicate Distinct<T(==)>(s: seq<T>) {
    forall i, j :: 0 <= i < j < |s| ==> s[i] != s[j]
  }

  /** `order` lists each askTable key exactly once: one iteration order of the map. */
  ghost predicate Enumerates(order: seq<CircId>, ask: map<CircId, CircId>) {
    Distinct(order) && forall k :: k in ask <==> k in order
  }

  /** The outbound ids a Destroy of `c` tears down. */
  function Doomed(ask: map<CircId, CircId>, c: CircId): set<CircId> {
    set o | o in ask && Matches(ask[o], c)
  }

  /**
   * Where outTable says outbound circuit `o` goes; `None` where sending a
   * Destroy there kills the handler: no entry, an entry that does not
   * split, or a port a socket refuses.
   */
  function Route(out: map<CircId, string>, o: CircId): Option<Endpoint> {
    if o !in out then None
    else
      match Split(out[o])
      case None => None
      case Some(ep) => if SocketPort(ep.port) then Some(ep) else None
  }

  function DestroyTo(o: CircId, ep: Endpoint): Send {
    Send(CellJson(Destroy(o)), ep.addr, ep.port)
  }

  /** The matching askTable keys, in iteration order. */
  function Matching(order: seq<CircId>, ask: map<CircId, CircId>, c: CircId): seq<CircId>
    requires forall o :: o in order ==> o in ask
  {
    if order == [] then []
    else
      var init := order[..|order| - 1];
      var o := order[|order| - 1];
      Matching(init, ask, c) + (if Matches(ask[o], c) then [o] else [])
  }

  /** The matching keys are exactly the keys in the iteration whose entry names `c`. */
  lemma {:induction false} MatchingMembers(order: seq<CircId>, ask: map<CircId, CircId>, c: CircId)
    requires forall o :: o in order ==> o in ask
    ensures forall o :: o in Matching(order, ask, c) <==> o in order && Matches(ask[o], c)
    decreases |order|
  {
    if order != [] {
      var init := order[..|order| - 1];
      assert order == init + [order[|order| - 1]];
      MatchingMembers(init, ask, c);
    }
  }

  /** Over a full iteration of askTable, the matching keys are the doomed set. */
  lemma MatchingIsDoomed(order: seq<CircId>, ask: map<CircId, CircId>, c: CircId)
    requires Enumerates(order, ask)
    ensures (set o | o in Matching(order, ask, c)) == Doomed(ask, c)
  {
    MatchingMembers(order, ask, c);
  }

  /** An iteration that visits each key once yields each matching key once. */
  lemma {:induction false} MatchingDistinct(order: seq<CircId>, ask: map<CircId, CircId>, c: CircId)
    requires forall o :: o in order ==> o in ask
    requires Distinct(order)
    ensures Distinct(Matching(order, ask, c))
    decreases |order|
  {
    if order != [] {
      var init := order[..|order| - 1];
      var last := order[|order| - 1];
      assert order == init + [last];
      MatchingMembers(init, ask, c);
      MatchingDistinct(init, ask, c);
      assert last !in init;
    }
  }

  /**
   * The Destroy cells sent for the matching ids `m`, and whether the loop
   * got through them all. The loop dies at the first id without a usable
   * outTable entry (a null lookup or a bad "addr:port"), having sent the
   * cells for the ids before it.
   */
  function DestroySends(m: seq<CircId>, out: map<CircId, string>): (r: (seq<Send>, bool))
    ensures r.1 ==> |r.0| == |m|
    ensures !r.1 ==> |r.0| < |m|
  {
    if m == [] then ([], true)
    else
      var p := DestroySends(m[..|m| - 1], out);
      var o := m[|m| - 1];
      if !p.1 then p
      else
        match Route(out, o)
        case None => (p.0, false)
        case Some(ep) => (p.0 + [DestroyTo(o, ep)], true)
  }

  /**
   * The Destroy cells sent are one per matching id, in order, each to that
   * id's outTable address, up to the first id without a usable entry; the
   * loop completes exactly when every matching id has one.
   */
  lemma {:induction false} DestroySendsShape(m: seq<CircId>, out: map<CircId, string>)
    ensures var r := DestroySends(m, out);
            && (forall j :: 0 <= j < |r.0| ==>
                  Route(out, m[j]).Some? && r.0[j] == DestroyTo(m[j], Route(out, m[j]).value))
            && (!r.1 ==> Route(out, m[|r.0|]).None?)
            && (r.1 <==> forall o :: o in m ==> Route(out, o).Some?)
    decreases |m|
  {
    if m != [] {
      var init := m[..|m| - 1];
      var o := m[|m| - 1];
      assert m == init + [o];
      DestroySendsShape(init, out);
    }
  }

  /**
   * The loop of doDestroy over askTable in iteration order `order`: for each
   * entry naming `c`, note its outbound id and emit a Destroy to its
   * outTable address. `complete` is false when the loop died at an entry
   * without a usable address; `emitted` holds what was sent before that.
   */
  method Cascade(order: seq<CircId>, ask: map<CircId, CircId>, out: map<CircId, string>, c: CircId)
    returns (emitted: seq<Send>, toRemove: seq<CircId>, complete: bool)
    requires forall o :: o in order ==> o in ask
    ensures (emitted, complete) == DestroySends(Matching(order, ask, c), out)
    ensures complete ==> toRemove == Matching(order, ask, c)
  {
    emitted, toRemove := [], [];
    var i := 0;
    while i < |order|
      invariant 0 <= i <= |order|
      invariant DestroySends(Matching(order[..i], ask, c), out) == (emitted, true)
      invariant toRemove == Matching(order[..i], ask, c)
    {
      var outId := order[i];
      MatchingStep(order, i, ask, c);
      if Matches(ask[outId], c) {
        toRemove := toRemove + [outId];
        var dest := Route(out, outId);
        if dest.None? {
          CascadeDiesAt(order, i, ask, out, c);
          return emitted, toRemove, false;
        }
        CascadeEmit(order, i, ask, out, c);
        emitted := emitted + [DestroyTo(outId, dest.value)];
      } else {
        CascadeSkip(order, i, ask, c);
      }
      i := i + 1;
    }
    assert order[..i] == order;
    complete := true;
  }

  lemma {:induction false} MatchingAppend(a: seq<CircId>, b: seq<CircId>, ask: map<CircId, CircId>, c: CircId)
    requires forall o :: o in a + b ==> o in ask
    ensures Matching(a + b, ask, c) == Matching(a, ask, c) + Matching(b, ask, c)
    decreases |b|
  {
    if b != [] {
      var init := b[..|b| - 1];
      assert (a + b)[..|a + b| - 1] == a + init;
      MatchingAppend(a, init, ask, c);
    } else {
      assert a + b == a;
    }
  }

  /** Once the loop has died, later matches change nothing. */
  lemma {:induction false} DestroySendsStuck(m: seq<CircId>, rest: seq<CircId>, out: map<CircId, string>)
    requires !DestroySends(m, out).1
    ensures DestroySends(m + rest, out) == DestroySends(m, out)
    decreases |rest|
  {
    if rest != [] {
      var init := rest[..|rest| - 1];
      assert (m + rest)[..|m + rest| - 1] == m + init;
      DestroySendsStuck(m, init, out);
    } else {
      assert m + rest == m;
    }
  }

  /** One more step of the iteration adds the next key if it matches. */
  lemma MatchingStep(order: seq<CircId>, i: nat, ask: map<CircId, CircId>, c: CircId)
    requires forall o :: o in order ==> o in ask
    requires i < |order|
    ensures Matching(order[..i + 1], ask, c)
            == Matching(order[..i], ask, c) + (if Matches(ask[order[i]], c) then [order[i]] else [])
  {
    assert order[..i + 1][..i] == order[..i];
  }

  /** A key that does not name the circuit adds nothing. */
  lemma CascadeSkip(order: seq<CircId>, i: nat, ask: map<CircId, CircId>, c: CircId)
    requires forall o :: o in order ==> o in ask
    requires i < |order| && !Matches(ask[order[i]], c)
    ensures Matching(order[..i + 1], ask, c) == Matching(order[..i], ask, c)
  {
    MatchingStep(order, i, ask, c);
  }

  /** A key that names the circuit and has a usable address adds one Destroy. */
  lemma CascadeEmit(order: seq<CircId>, i: nat, ask: map<CircId, CircId>, out: map<CircId, string>, c: CircId)
    requires forall o :: o in order ==> o in ask
    requires i < |order| && Matches(ask[order[i]], c) && Route(out, order[i]).Some?
    requires DestroySends(Matching(order[..i], ask, c), out).1
    ensures DestroySends(Matching(order[..i + 1], ask, c), out)
            == (DestroySends(Matching(order[..i], ask, c), out).0 + [DestroyTo(order[i], Route(out, order[i]).value)], true)
  {
    MatchingStep(order, i, ask, c);
    var m := Matching(order[..i + 1], ask, c);
    assert m[..|m| - 1] == Matching(order[..i], ask, c);
  }

  /**
   * If the loop reaches a matching key without a usable outTable entry, the
   * whole cascade is what was sent before it, and incomplete.
   */
  lemma CascadeDiesAt(order: seq<CircId>, i: nat, ask: map<CircId, CircId>, out: map<CircId, string>, c: CircId)
    requires forall o :: o in order ==> o in ask
    requires i < |order| && Matches(ask[order[i]], c) && Route(out, order[i]).None?
    requires DestroySends(Matching(order[..i], ask, c), out).1
    ensures DestroySends(Matching(order, ask, c), out) == (DestroySends(Matching(order[..i], ask, c), out).0, false)
  {
    var m := Matching(order[..i + 1], ask, c);
    MatchingStep(order, i, ask, c);
    assert m[..|m| - 1] == Matching(order[..i], ask, c);
    MatchingAppend(order[..i + 1], order[i + 1..], ask, c);
    assert order[..i + 1] + order[i + 1..] == order;
    DestroySendsStuck(m, Matching(order[i + 1..], ask, c), out);
  }

  lemma {:induction false} DistinctCard<T>(s: seq<T>)
    requires Distinct(s)
    ensures |set x | x in s| == |s|
  {
    if s != [] {
      var init := s[..|s| - 1];
      var last := s[|s| - 1];
      DistinctCard(init);
      assert (set x | x in s) == (set x | x in init) + {last};
      assert last !in (set x | x in init);
    }
  }

  /** Every id of a completed cascade gets its Destroy. */
  lemma CompleteCovers(m: seq<CircId>, out: map<CircId, string>, o: CircId)
    requires DestroySends(m, out).1 && o in m
    ensures Route(out, o).Some?
    ensures exists j :: 0 <= j < |DestroySends(m, out).0| && DestroySends(m, out).0[j] == DestroyTo(o, Route(out, o).value)
  {
    var sends := DestroySends(m, out).0;
    DestroySendsShape(m, out);
    var j :| 0 <= j < |m| && m[j] == o;
    assert sends[j] == DestroyTo(m[j], Route(out, m[j]).value);
  }

  /** Every Destroy of a completed cascade is for one of its ids. */
  lemma CompleteOnly(m: seq<CircId>, out: map<CircId, string>, j: nat)
    requires DestroySends(m, out).1 && j < |DestroySends(m, out).0|
    ensures m[j] in m && Route(out, m[j]).Some?
    ensures DestroySends(m, out).0[j] == DestroyTo(m[j], Route(out, m[j]).value)
  {
    DestroySendsShape(m, out);
  }

  /** Distinct ids give distinct Destroy cells. */
  lemma CompleteDistinct(m: seq<CircId>, out: map<CircId, string>)
    requires DestroySends(m, out).1 && Distinct(m)
    ensures Distinct(DestroySends(m, out).0)
  {
    var sends := DestroySends(m, out).0;
    DestroySendsShape(m, out);
    forall i, j | 0 <= i < j < |sends|
      ensures sends[i] != sends[j]
    {
      assert sends[i].msg.cell.circID == m[i];
      assert sends[j].msg.cell.circID == m[j];
    }
  }

  /**
   * A cascade that completes sends exactly one Destroy per doomed outbound
   * circuit, to that circuit's outTable address, and nothing else.
   */
  lemma OnePerDoomedCircuit(order: seq<CircId>, ask: map<CircId, CircId>, out: map<CircId, string>, c: CircId)
    requires Enumerates(order, ask)
    requires DestroySends(Matching(order, ask, c), out).1
    ensures var sends := DestroySends(Matching(order, ask, c), out).0;
            && |sends| == |Doomed(ask, c)|
            && (forall o :: o in Doomed(ask, c) ==>
                  Route(out, o).Some? && exists j :: 0 <= j < |sends| && sends[j] == DestroyTo(o, Route(out, o).value))
            && (forall j :: 0 <= j < |sends| ==>
                  exists o :: o in Doomed(ask, c) && Route(out, o).Some? && sends[j] == DestroyTo(o, Route(out, o).value))
            && Distinct(sends)
  {
    var m := Matching(order, ask, c);
    var sends := DestroySends(m, out).0;
    MatchingIsDoomed(order, ask, c);
    MatchingDistinct(order, ask, c);
    DistinctCard(m);
    forall o | o in Doomed(ask, c)
      ensures Route(out, o).Some? && exists j :: 0 <= j < |sends| && sends[j] == DestroyTo(o, Route(out, o).value)
    {
      assert o in (set x | x in m);
      CompleteCovers(m, out, o);
    }
    forall j | 0 <= j < |sends|
      ensures exists o :: o in Doomed(ask, c) && Route(out, o).Some? && sends[j] == DestroyTo(o, Route(out, o).value)
    {
      CompleteOnly(m, out, j);
      assert m[j] in (set x | x in m);
    }
    CompleteDistinct(m, out);
  }

  /**
   * A Destroy whose outbound address names a port a socket refuses is never
   * written, and the cascade stops there: with outTable "o" -> "h:70000"
   * nothing is sent and the loop does not complete.
   */
  lemma RefusedPortStopsCascade()
    ensures DestroySends(["o"], map["o" := "h:70000"]) == ([], false)
  {
    var out := map["o" := "h:70000"];
    SplitHighPort();
    assert Route(out, "o").None?;
    var m: seq<CircId> := ["o"];
    assert m[..0] == [];
  }

  /**
   * Because doDestroy removes askTable[c] rather than the doomed outbound
   * keys, those keys keep their askTable entries while losing their
   * outTable ones; a second Destroy of the same circuit then reaches such a
   * stale entry and dies before purging anything.
   */
  lemma SecondDestroyStalls(ask: map<CircId, CircId>, out: map<CircId, string>, c: CircId, o: CircId,
                            order: seq<CircId>)
    requires o in Doomed(ask, c) && o != c
    requires Enumerates(order, ask - {c})
    ensures o in ask - {c} && o !in out - Doomed(ask, c)
    ensures !DestroySends(Matching(order, ask - {c}, c), out - Doomed(ask, c)).1
  {
    MatchingMembers(order, ask - {c}, c);
    DestroySendsShape(Matching(order, ask - {c}, c), out - Doomed(ask, c));
    assert o in Matching(order, ask - {c}, c);
  }
}
