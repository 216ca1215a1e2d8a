/**
  The Router class of script.js: its constructor's own initialisation and
  updateDistanceVector, which relaxes the distance vector in place, neighbour
  by neighbour and destination by destination.
*/
module Routers {
  import opened Wrappers
  import opened Costs
  import opened Links
  import opened Relaxation
  import opened Topology

  /** One destination's entry after offering it the candidate `cand` of neighbour `n`. */
  function Offer(entry: (Cost, Option<nat>), cand: Cost, n: nat): (r: (Cost, Option<nat>))
    ensures AtMost(r.0, entry.0) && AtMost(r.0, cand)
    ensures r != entry ==> Less(cand, entry.0) && r == (cand, Some(n))
  {
    if Less(cand, entry.0) then (cand, Some(n)) else entry
  }

  /** Offering neighbour `ns[0]` first and the rest after it is the whole relaxation of the entry. */
  lemma RelaxEntryUnfold(self: nat, d: nat, cur: Cost, hop: Option<nat>, ns: seq<nat>, i: nat,
                         received: Received, links: LinkTable, reading: Reading)
    requires i < |ns|
    ensures var e := if ns[i] in received then Offer((cur, hop), Candidate(self, ns[i], d, received, links, reading), ns[i])
                     else (cur, hop);
            RelaxEntry(self, d, cur, hop, ns[i..], received, links, reading)
              == RelaxEntry(self, d, e.0, e.1, ns[i + 1..], received, links, reading)
  {
    assert ns[i..][1..] == ns[i + 1..];
  }

  /**
    Along a run of entries that only ever decrease, the vector differs from
    where it started exactly when some step changed it.
  */
  lemma MonotoneChange(dv0: Vector, dv1: Vector, dv2: Vector)
    requires dv1.Keys == dv0.Keys && dv2.Keys == dv0.Keys
    requires forall d | d in dv0 :: AtMost(dv1[d], dv0[d])
    requires forall d | d in dv0 :: AtMost(dv2[d], dv1[d])
    ensures dv2 != dv0 <==> dv1 != dv0 || dv2 != dv1
  {
    if dv1 != dv0 {
      var d :| d in dv0 && dv1[d] != dv0[d];
      assert dv2[d] != dv0[d];
    } else if dv2 != dv1 {
      var d :| d in dv0 && dv2[d] != dv1[d];
      assert dv2[d] != dv0[d];
    }
  }

  /** A vector and next-hop table that agree with `RelaxEntry` on every entry are the relaxed ones. */
  lemma RelaxVectorByEntries(self: nat, dv0: Vector, nh0: Hops, ns: seq<nat>, received: Received,
                             links: LinkTable, reading: Reading, dv: Vector, nh: Hops)
    requires dv.Keys == dv0.Keys && nh.Keys == nh0.Keys
    requires forall d | d in dv0 && d != self :: d in nh0
    requires self in dv0 ==> dv[self] == dv0[self]
    requires forall d | d in nh0 && (d !in dv0 || d == self) :: nh[d] == nh0[d]
    requires forall d | d in dv0 && d != self ::
               (dv[d], HopAt(nh, d)) == RelaxEntry(self, d, dv0[d], HopAt(nh0, d), ns, received, links, reading)
    ensures (dv, nh) == RelaxVector(self, dv0, nh0, ns, received, links, reading)
  {
    var r := RelaxVector(self, dv0, nh0, ns, received, links, reading);
    assert dv == r.0;
    assert nh == r.1 by {
      forall d | d in nh0 ensures nh[d] == r.1[d] {
        if d in dv0 && d != self {
          assert HopAt(nh, d) == nh[d];
        }
      }
    }
  }

  /**
    The second loop of the Router constructor: every router already in
    `routers` gets an Infinity distance and a null next hop toward the new
    id. (Its `routerId !== id` test never fails, since the new router is
    stored only after construction.)
  */
  method RegisterNewId(routers: RouterTable, id: nat) returns (r: RouterTable)
    ensures r.Keys == routers.Keys
    ensures forall i | i in routers :: r[i].neighbors == routers[i].neighbors
    ensures forall i | i in routers :: r[i].updatedInIteration == routers[i].updatedInIteration
    ensures forall i | i in routers :: r[i].distanceVector == routers[i].distanceVector[id := Inf]
    ensures forall i | i in routers :: r[i].nextHop == routers[i].nextHop[id := None]
  {
    r := routers;
    var rest := routers.Keys;
    while rest != {}
      invariant rest <= routers.Keys && r.Keys == routers.Keys
      invariant forall i | i in routers :: r[i] == if i in rest then routers[i] else Register(routers[i], id)
      decreases rest
    {
      var routerId :| routerId in rest;
      r := r[routerId := r[routerId].(distanceVector := r[routerId].distanceVector[id := Inf])];
      r := r[routerId := r[routerId].(nextHop := r[routerId].nextHop[id := None])];
      rest := rest - {routerId};
    }
  }

  class Router {
    const id: nat
    var neighbors: seq<nat>
    var distanceVector: Vector
    var nextHop: Hops
    var updatedInIteration: bool

    function State(): RouterState
      reads this
    {
      RouterState(neighbors, distanceVector, nextHop, updatedInIteration)
    }

    /**
      `new Router(id, x, y)`: Infinity and a null next hop toward every router
      that already exists, 0 toward itself, no neighbours. (The screen
      position is not modelled.)
    */
    constructor (id: nat, existing: set<nat>)
      ensures this.id == id
      ensures State() == FreshRouter(id, existing)
    {
      this.id := id;
      var dv: Vector := map[];
      var nh: Hops := map[];
      var rest := existing;
      while rest != {}
        invariant rest <= existing
        invariant dv == map r | r in existing - rest :: Inf
        invariant forall r :: r in nh <==> r in existing && r !in rest
        invariant forall r | r in nh :: nh[r] == None
        decreases rest
      {
        var r :| r in rest;
        dv := dv[r := Inf];
        nh := nh[r := None];
        rest := rest - {r};
      }
      neighbors := [];
      distanceVector := dv[id := Fin(0)];
      nextHop := nh;
      updatedInIteration := false;
    }

    /**
      A router object holding a state the network has stored; the network
      keeps its routers' states as values and loads one to update it.
    */
    constructor Load(id: nat, s: RouterState)
      ensures this.id == id && State() == s
    {
      this.id := id;
      neighbors := s.neighbors;
      distanceVector := s.distanceVector;
      nextHop := s.nextHop;
      updatedInIteration := s.updatedInIteration;
    }

    /**
      updateDistanceVector: the vector and next hops become exactly the
      relaxation `RelaxVector` against the received vectors, reading a
      neighbour's 0 entry as Infinity (`neighborVector[dest] || Infinity`).
      The result, and the flag it raises, say whether the vector changed.
    */
    method UpdateDistanceVector(received: Received, links: LinkTable) returns (updated: bool)
      requires forall d | d in distanceVector && d != id :: d in nextHop
      modifies this
      ensures neighbors == old(neighbors)
      ensures (distanceVector, nextHop)
              == RelaxVector(id, old(distanceVector), old(nextHop), neighbors, received, links, ZeroAsInfinity)
      ensures updated <==> distanceVector != old(distanceVector)
      ensures updatedInIteration == (old(updatedInIteration) || updated)
    {
      var dv, nh;
      dv, nh, updated := RelaxAll(id, distanceVector, nextHop, neighbors, received, links, ZeroAsInfinity);
      distanceVector, nextHop := dv, nh;
      if updated {
        updatedInIteration := true;
      }
    }
  }

  /**
    The state of the outer loop after the first `i` neighbours of `ns`: the
    key sets and the self entry are as they were, no entry has grown,
    `updated` says whether the vector changed, and relaxing each entry
    against the remaining neighbours gives what relaxing it against all of
    them from the start gives.
  */
  ghost predicate Relaxing(self: nat, dv0: Vector, nh0: Hops, ns: seq<nat>, i: nat, received: Received,
                           links: LinkTable, reading: Reading, dv: Vector, nh: Hops, updated: bool)
  {
    && i <= |ns|
    && dv.Keys == dv0.Keys && nh.Keys == nh0.Keys
    && (self in dv0 ==> dv[self] == dv0[self])
    && (forall d | d in nh0 && (d !in dv0 || d == self) :: nh[d] == nh0[d])
    && (forall d | d in dv0 && d != self ::
          RelaxEntry(self, d, dv[d], HopAt(nh, d), ns[i..], received, links, reading)
          == RelaxEntry(self, d, dv0[d], HopAt(nh0, d), ns, received, links, reading))
    && (forall d | d in dv0 :: AtMost(dv[d], dv0[d]))
    && (updated <==> dv != dv0)
  }

  /**
    What offering every destination of `dv0` (other than `self`) the route
    through `neighbor` does: each entry takes `Offer`, the rest stays, and
    `changed` says whether the vector changed.
  */
  ghost predicate OfferedAll(self: nat, dv0: Vector, nh0: Hops, neighbor: nat, neighborVector: Vector,
                             linkCost: Cost, reading: Reading, dv: Vector, nh: Hops, changed: bool)
  {
    && dv.Keys == dv0.Keys && nh.Keys == nh0.Keys
    && (forall d | d in dv0 && d != self ::
          (dv[d], HopAt(nh, d))
          == Offer((dv0[d], HopAt(nh0, d)), Add(linkCost, Offered(neighborVector, d, reading)), neighbor))
    && (self in dv0 ==> dv[self] == dv0[self])
    && (forall d | d in nh0 && (d !in dv0 || d == self) :: nh[d] == nh0[d])
    && (forall d | d in dv0 :: AtMost(dv[d], dv0[d]))
    && (changed <==> dv != dv0)
  }

  /** The loop starts with nothing relaxed. */
  lemma RelaxingStart(self: nat, dv0: Vector, nh0: Hops, ns: seq<nat>, received: Received,
                      links: LinkTable, reading: Reading)
    ensures Relaxing(self, dv0, nh0, ns, 0, received, links, reading, dv0, nh0, false)
  {
    assert ns[0..] == ns;
  }

  /** One neighbour of the outer loop keeps the loop's state described. */
  lemma RelaxingStep(self: nat, dv0: Vector, nh0: Hops, ns: seq<nat>, i: nat, received: Received,
                     links: LinkTable, reading: Reading, dvI: Vector, nhI: Hops, updatedI: bool,
                     dv: Vector, nh: Hops, changed: bool)
    requires i < |ns| && Relaxing(self, dv0, nh0, ns, i, received, links, reading, dvI, nhI, updatedI)
    requires ns[i] in received ==>
               OfferedAll(self, dvI, nhI, ns[i], received[ns[i]], LinkCost(links, self, ns[i]), reading, dv, nh, changed)
    requires ns[i] !in received ==> dv == dvI && nh == nhI && !changed
    ensures Relaxing(self, dv0, nh0, ns, i + 1, received, links, reading, dv, nh, updatedI || changed)
  {
    if ns[i] in received {
      MonotoneChange(dv0, dvI, dv);
      forall d | d in dv0 ensures AtMost(dv[d], dv0[d]) {
        assert AtMost(dv[d], dvI[d]) && AtMost(dvI[d], dv0[d]);
      }
    }
    RelaxingEntries(self, dv0, nh0, ns, i, received, links, reading, dvI, nhI, dv, nh);
  }

  /** The entry-by-entry part of `RelaxingStep`. */
  lemma RelaxingEntries(self: nat, dv0: Vector, nh0: Hops, ns: seq<nat>, i: nat, received: Received,
                        links: LinkTable, reading: Reading, dvI: Vector, nhI: Hops, dv: Vector, nh: Hops)
    requires i < |ns| && dvI.Keys == dv0.Keys && dv.Keys == dv0.Keys
    requires forall d | d in dv0 && d != self ::
               RelaxEntry(self, d, dvI[d], HopAt(nhI, d), ns[i..], received, links, reading)
               == RelaxEntry(self, d, dv0[d], HopAt(nh0, d), ns, received, links, reading)
    requires forall d | d in dv0 && d != self ::
               (dv[d], HopAt(nh, d))
               == if ns[i] in received
                  then Offer((dvI[d], HopAt(nhI, d)), Candidate(self, ns[i], d, received, links, reading), ns[i])
                  else (dvI[d], HopAt(nhI, d))
    ensures forall d | d in dv0 && d != self ::
              RelaxEntry(self, d, dv[d], HopAt(nh, d), ns[i + 1..], received, links, reading)
              == RelaxEntry(self, d, dv0[d], HopAt(nh0, d), ns, received, links, reading)
  {
    forall d | d in dv0 && d != self
      ensures RelaxEntry(self, d, dv[d], HopAt(nh, d), ns[i + 1..], received, links, reading)
              == RelaxEntry(self, d, dv0[d], HopAt(nh0, d), ns, received, links, reading)
    {
      RelaxEntryUnfold(self, d, dvI[d], HopAt(nhI, d), ns, i, received, links, reading);
    }
  }

  /** The loop has gone through every neighbour: the relaxation is complete. */
  lemma RelaxingEnd(self: nat, dv0: Vector, nh0: Hops, ns: seq<nat>, received: Received,
                    links: LinkTable, reading: Reading, dv: Vector, nh: Hops, updated: bool)
    requires forall d | d in dv0 && d != self :: d in nh0
    requires Relaxing(self, dv0, nh0, ns, |ns|, received, links, reading, dv, nh, updated)
    ensures (dv, nh) == RelaxVector(self, dv0, nh0, ns, received, links, reading)
  {
    forall d | d in dv0 && d != self
      ensures (dv[d], HopAt(nh, d)) == RelaxEntry(self, d, dv0[d], HopAt(nh0, d), ns, received, links, reading)
    {
      assert ns[|ns|..] == [];
    }
    RelaxVectorByEntries(self, dv0, nh0, ns, received, links, reading, dv, nh);
  }

  /**
    The nested loops of updateDistanceVector (script.js) and
    update_distance_vector (dvr.py): neighbour by neighbour, each destination
    other than `self` takes the neighbour's offer when it is strictly
    cheaper. The outcome is `RelaxVector`, and `updated` says whether the
    vector changed.
  */
  method RelaxAll(self: nat, dv0: Vector, nh0: Hops, ns: seq<nat>, received: Received,
                  links: LinkTable, reading: Reading)
    returns (dv: Vector, nh: Hops, updated: bool)
    requires forall d | d in dv0 && d != self :: d in nh0
    ensures (dv, nh) == RelaxVector(self, dv0, nh0, ns, received, links, reading)
    ensures updated <==> dv != dv0
  {
    dv, nh := dv0, nh0;
    updated := false;
    RelaxingStart(self, dv0, nh0, ns, received, links, reading);
    var i := 0;
    while i < |ns|
      invariant Relaxing(self, dv0, nh0, ns, i, received, links, reading, dv, nh, updated)
    {
      dv, nh, updated := RelaxNeighbor(self, dv0, nh0, ns, i, received, links, reading, dv, nh, updated);
      i := i + 1;
    }
    RelaxingEnd(self, dv0, nh0, ns, received, links, reading, dv, nh, updated);
  }

  /** One pass of the outer loop: neighbour `ns[i]` offers its vector, if one was received. */
  method RelaxNeighbor(self: nat, dv0: Vector, nh0: Hops, ns: seq<nat>, i: nat, received: Received,
                       links: LinkTable, reading: Reading, dv: Vector, nh: Hops, updated: bool)
    returns (dv': Vector, nh': Hops, updated': bool)
    requires forall d | d in dv0 && d != self :: d in nh0
    requires i < |ns| && Relaxing(self, dv0, nh0, ns, i, received, links, reading, dv, nh, updated)
    ensures Relaxing(self, dv0, nh0, ns, i + 1, received, links, reading, dv', nh', updated')
  {
    var neighbor := ns[i];
    dv', nh', updated' := dv, nh, updated;
    var changed := false;
    if neighbor in received {
      dv', nh', changed := OfferAll(self, dv, nh, neighbor, received[neighbor], LinkCost(links, self, neighbor), reading);
      if changed {
        updated' := true;
      }
    }
    RelaxingStep(self, dv0, nh0, ns, i, received, links, reading, dv, nh, updated, dv', nh', changed);
  }

  /**
    The inner loop: every destination of `dv0` other than `self` is offered
    `linkCost` plus the neighbour's entry as `reading` reads it, taken when
    strictly cheaper, with `neighbor` as its next hop.
  */
  method OfferAll(self: nat, dv0: Vector, nh0: Hops, neighbor: nat, neighborVector: Vector, linkCost: Cost,
                  reading: Reading)
    returns (dv: Vector, nh: Hops, changed: bool)
    requires forall d | d in dv0 && d != self :: d in nh0
    ensures dv.Keys == dv0.Keys && nh.Keys == nh0.Keys
    ensures forall d | d in dv0 && d != self ::
              (dv[d], HopAt(nh, d))
              == Offer((dv0[d], HopAt(nh0, d)), Add(linkCost, Offered(neighborVector, d, reading)), neighbor)
    ensures self in dv0 ==> dv[self] == dv0[self]
    ensures forall d | d in nh0 && (d !in dv0 || d == self) :: nh[d] == nh0[d]
    ensures forall d | d in dv0 :: AtMost(dv[d], dv0[d])
    ensures changed <==> dv != dv0
  {
    dv := dv0;
    nh := nh0;
    changed := false;
    var dests := dv.Keys;
    while dests != {}
      invariant dests <= dv.Keys == dv0.Keys && nh.Keys == nh0.Keys
      invariant forall d | d in dv ::
                  (dv[d], HopAt(nh, d))
                  == if d in dests || d == self then (dv0[d], HopAt(nh0, d))
                     else Offer((dv0[d], HopAt(nh0, d)), Add(linkCost, Offered(neighborVector, d, reading)), neighbor)
      invariant forall d | d in nh && d !in dv :: nh[d] == nh0[d]
      invariant changed <==> dv != dv0
      decreases dests
    {
      var dest :| dest in dests;
      if dest != self {
        var newCost := Add(linkCost, Offered(neighborVector, dest, reading));
        if Less(newCost, dv[dest]) {
          dv := dv[dest := newCost];
          nh := nh[dest := Some(neighbor)];
          changed := true;
        }
      }
      dests := dests - {dest};
    }
    forall d | d in nh0 && d == self ensures nh[d] == nh0[d] {
      assert HopAt(nh, d) == HopAt(nh0, d);
    }
  }
}
