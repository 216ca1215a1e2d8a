/**
  The topology store of script.js as values: the routers' state, the
  structural invariant the store keeps, and what addRouter, deleteRouter and
  addLink do to the router table and the link table.
*/
module Topology {
  import opened Wrappers
  import opened Costs
  import opened Links
  import opened Relaxation

  /** The fields of one router (the node of dvr.py has the same four). */
  datatype RouterState = RouterState(
    neighbors: seq<nat>,
    distanceVector: Vector,
    nextHop: Hops,
    updatedInIteration: bool)

  /** The global `routers` object, keyed by router id. */
  type RouterTable = map<nat, RouterState>

  predicate Distinct(s: seq<nat>)
  {
    forall i, j | 0 <= i < j < |s| :: s[i] != s[j]
  }

  /**
    Router `r`'s distance vector has an entry for every router and its own
    entry is 0; its next-hop table has an entry for every other router (the
    constructor never creates a self entry in `nextHop`), and that entry is
    null exactly when the cost is Infinity.
  */
  ghost predicate RouterShaped(t: RouterTable, r: nat)
    requires r in t
  {
    && t[r].distanceVector.Keys == t.Keys
    && t[r].nextHop.Keys == t.Keys - {r}
    && t[r].distanceVector[r] == Fin(0)
    && HopsMatch(t[r].distanceVector, t[r].nextHop)
  }

  ghost predicate VectorsShaped(t: RouterTable)
  {
    forall r {:trigger RouterShaped(t, r)} | r in t :: RouterShaped(t, r)
  }

  /**
    A link joins two distinct existing routers, is stored in one orientation
    only, and costs at least 1.
  */
  ghost predicate LinkShaped(t: RouterTable, links: LinkTable, k: (nat, nat))
    requires k in links
  {
    k.0 != k.1 && k.0 in t && k.1 in t && (k.1, k.0) !in links && links[k] >= 1
  }

  ghost predicate LinksShaped(t: RouterTable, links: LinkTable)
  {
    forall k {:trigger LinkShaped(t, links, k)} | k in links :: LinkShaped(t, links, k)
  }

  /** Router `r`'s neighbour list holds each router linked to it exactly once. */
  ghost predicate NeighborsOf(t: RouterTable, links: LinkTable, r: nat)
    requires r in t
  {
    Distinct(t[r].neighbors) &&
    forall n: nat :: n in t[r].neighbors <==> Linked(links, r, n)
  }

  ghost predicate NeighborsMatch(t: RouterTable, links: LinkTable)
  {
    forall r {:trigger NeighborsOf(t, links, r)} | r in t :: NeighborsOf(t, links, r)
  }

  /** The invariant of the topology store; `nextId` is `nextRouterId`. */
  ghost predicate TableInv(t: RouterTable, links: LinkTable, nextId: nat)
  {
    && (forall r | r in t :: r < nextId)
    && VectorsShaped(t)
    && LinksShaped(t, links)
    && NeighborsMatch(t, links)
  }

  // ----- addRouter -----

  /** The Router constructor: 0 to itself, Infinity/null to every router that already exists, no neighbours. */
  function FreshRouter(id: nat, existing: set<nat>): RouterState
  {
    RouterState([], (map r | r in existing :: Inf)[id := Fin(0)], map r | r in existing :: None, false)
  }

  /** Every existing router also learns the new id, as Infinity/null. */
  function Register(e: RouterState, id: nat): RouterState
  {
    e.(distanceVector := e.distanceVector[id := Inf], nextHop := e.nextHop[id := None])
  }

  function AddRouterSpec(t: RouterTable, id: nat): RouterTable
  {
    (map r | r in t :: Register(t[r], id))[id := FreshRouter(id, t.Keys)]
  }

  /**
    Adding router `nextRouterId` keeps the invariant with the counter one
    higher.
  */
  lemma AddRouterKeepsInvariant(t: RouterTable, links: LinkTable, id: nat)
    requires TableInv(t, links, id)
    ensures TableInv(AddRouterSpec(t, id), links, id + 1)
    ensures AddRouterSpec(t, id).Keys == t.Keys + {id}
    ensures id !in t
  {
    assert id !in t;
    AddRouterVectors(t, id);
    AddRouterNeighbors(t, links, id);
    forall k | k in links ensures LinkShaped(AddRouterSpec(t, id), links, k) {
      assert LinkShaped(t, links, k);
    }
  }

  lemma AddRouterVectors(t: RouterTable, id: nat)
    requires VectorsShaped(t) && id !in t
    ensures VectorsShaped(AddRouterSpec(t, id))
    ensures AddRouterSpec(t, id).Keys == t.Keys + {id}
  {
    var t' := AddRouterSpec(t, id);
    assert t'.Keys == t.Keys + {id};
    forall r | r in t' ensures RouterShaped(t', r) {
      AddRouterShapedAt(t, id, r);
    }
  }

  lemma AddRouterNeighbors(t: RouterTable, links: LinkTable, id: nat)
    requires NeighborsMatch(t, links) && LinksShaped(t, links) && id !in t
    ensures NeighborsMatch(AddRouterSpec(t, id), links)
  {
    var t' := AddRouterSpec(t, id);
    forall r | r in t' ensures NeighborsOf(t', links, r) {
      AddRouterNeighborsAt(t, links, id, r);
    }
  }

  lemma AddRouterShapedAt(t: RouterTable, id: nat, r: nat)
    requires VectorsShaped(t) && id !in t && r in AddRouterSpec(t, id)
    ensures RouterShaped(AddRouterSpec(t, id), r)
  {
    var t' := AddRouterSpec(t, id);
    assert t'.Keys == t.Keys + {id};
    if r == id {
      FreshRouterShaped(id, t.Keys);
      assert t'[r] == FreshRouter(id, t.Keys);
    } else {
      assert RouterShaped(t, r);
      RegisterShaped(t[r], id, t.Keys, r);
      assert t'[r] == Register(t[r], id);
    }
  }

  /** The new router's entry has the shape of a router among `existing` and itself. */
  lemma FreshRouterShaped(id: nat, existing: set<nat>)
    requires id !in existing
    ensures var e := FreshRouter(id, existing);
      && e.distanceVector.Keys == existing + {id} && e.nextHop.Keys == existing + {id} - {id}
      && e.distanceVector[id] == Fin(0) && HopsMatch(e.distanceVector, e.nextHop)
  {
    var e := FreshRouter(id, existing);
    assert existing + {id} - {id} == existing;
  }

  /** An existing router's entry keeps its shape when the new id is registered. */
  lemma RegisterShaped(e: RouterState, id: nat, keys: set<nat>, r: nat)
    requires r in keys && e.distanceVector.Keys == keys && e.nextHop.Keys == keys - {r}
    requires e.distanceVector[r] == Fin(0) && HopsMatch(e.distanceVector, e.nextHop)
    requires id !in keys && r != id
    ensures var e' := Register(e, id);
      && e'.distanceVector.Keys == keys + {id} && e'.nextHop.Keys == keys + {id} - {r}
      && e'.distanceVector[r] == Fin(0) && HopsMatch(e'.distanceVector, e'.nextHop)
  {
  }

  lemma AddRouterNeighborsAt(t: RouterTable, links: LinkTable, id: nat, r: nat)
    requires NeighborsMatch(t, links) && LinksShaped(t, links) && id !in t && r in AddRouterSpec(t, id)
    ensures NeighborsOf(AddRouterSpec(t, id), links, r)
  {
    var t' := AddRouterSpec(t, id);
    if r == id {
      assert t'[r].neighbors == [];
      forall k | k in links ensures k.0 != id && k.1 != id {
        assert LinkShaped(t, links, k);
      }
    } else {
      assert NeighborsOf(t, links, r);
      assert t'[r] == Register(t[r], id);
    }
  }

  /**
    The new router is unreachable from and to everyone, and no existing
    entry changes.
  */
  lemma AddRouterEntries(t: RouterTable, id: nat, r: nat)
    requires VectorsShaped(t) && id !in t && r in t
    ensures AddRouterSpec(t, id)[id].distanceVector[r] == Inf && AddRouterSpec(t, id)[id].nextHop[r] == None
    ensures AddRouterSpec(t, id)[r].distanceVector[id] == Inf && AddRouterSpec(t, id)[r].nextHop[id] == None
    ensures forall d | d in t[r].distanceVector ::
              AddRouterSpec(t, id)[r].distanceVector[d] == t[r].distanceVector[d]
    ensures forall d | d in t[r].nextHop :: AddRouterSpec(t, id)[r].nextHop[d] == t[r].nextHop[d]
    ensures AddRouterSpec(t, id)[id].distanceVector[id] == Fin(0) && AddRouterSpec(t, id)[id].neighbors == []
  {
    var t' := AddRouterSpec(t, id);
    assert RouterShaped(t, r);
    assert t'[r] == Register(t[r], id);
    assert t'[id] == FreshRouter(id, t.Keys);
  }

  // ----- deleteRouter -----

  /** `s` with `x` left out. */
  function Without(s: seq<nat>, x: nat): (r: seq<nat>)
    ensures forall y :: y in r <==> y in s && y != x
    ensures Distinct(s) ==> Distinct(r)
    ensures x !in s ==> r == s
  {
    if s == [] then []
    else if s[0] == x then Without(s[1..], x)
    else
      assert Distinct(s) ==> s[0] !in s[1..];
      [s[0]] + Without(s[1..], x)
  }

  /** `Array.prototype.indexOf`: the first position of `x`, or -1. */
  function IndexOf(s: seq<nat>, x: nat): (i: int)
    ensures -1 <= i < |s|
    ensures i == -1 <==> x !in s
    ensures 0 <= i ==> s[i] == x && x !in s[..i]
  {
    if s == [] then -1
    else if s[0] == x then 0
    else
      var j := IndexOf(s[1..], x);
      assert 0 <= j ==> s[..j + 1] == [s[0]] + s[1..][..j];
      if j == -1 then -1 else j + 1
  }

  /**
    `neighbors.splice(neighbors.indexOf(x), 1)` on a list holding `x` once
    leaves exactly the list without `x`.
  */
  lemma SpliceRemoves(s: seq<nat>, x: nat)
    requires Distinct(s) && x in s
    ensures s[..IndexOf(s, x)] + s[IndexOf(s, x) + 1..] == Without(s, x)
  {
    var i := IndexOf(s, x);
    forall k | i + 1 <= k < |s|
      ensures s[k] != x
    {
      assert s[i] != s[k];
    }
    SpliceRemovesOnce(s, x);
  }

  /** The same, when `x` occurs only once. */
  lemma {:induction false} SpliceRemovesOnce(s: seq<nat>, x: nat)
    requires x in s && x !in s[IndexOf(s, x) + 1..]
    ensures s[..IndexOf(s, x)] + s[IndexOf(s, x) + 1..] == Without(s, x)
  {
    if s[0] == x {
      assert s[..0] + s[1..] == s[1..];
    } else {
      var tl := s[1..];
      var j := IndexOf(tl, x);
      assert IndexOf(s, x) == j + 1;
      assert s[j + 2..] == tl[j + 1..];
      SpliceRemovesOnce(tl, x);
      calc {
        s[..j + 1] + s[j + 2..];
        { SpliceCons(s, j); }
        [s[0]] + (tl[..j] + tl[j + 1..]);
        [s[0]] + Without(tl, x);
      }
    }
  }

  /** Cutting position `j + 1` out of `s` keeps its head and cuts position `j` out of its tail. */
  lemma SpliceCons(s: seq<nat>, j: nat)
    requires j + 1 < |s|
    ensures s[..j + 1] + s[j + 2..] == [s[0]] + (s[1..][..j] + s[1..][j + 1..])
  {
    assert s[..j + 1] == [s[0]] + s[1..][..j];
  }

  /** The links that do not touch `x`. */
  function DeleteLinks(links: LinkTable, x: nat): LinkTable
  {
    map k | k in links && k.0 != x && k.1 != x :: links[k]
  }

  /** One router's state once `x` is gone from its neighbour list, distance vector and next-hop table. */
  function Forget(e: RouterState, x: nat): RouterState
  {
    e.(neighbors := Without(e.neighbors, x),
       distanceVector := e.distanceVector - {x},
       nextHop := e.nextHop - {x})
  }

  /**
    deleteRouter: `x` leaves the table, every neighbour list, every distance
    vector and every next-hop table; nothing else changes, so next hops that
    pointed at `x` still do.
  */
  function DeleteRouterSpec(t: RouterTable, x: nat): RouterTable
  {
    map r | r in t && r != x :: Forget(t[r], x)
  }

  /** Deleting a router keeps the invariant and leaves no link to it. */
  lemma DeleteRouterKeepsInvariant(t: RouterTable, links: LinkTable, nextId: nat, x: nat)
    requires TableInv(t, links, nextId) && x in t
    ensures TableInv(DeleteRouterSpec(t, x), DeleteLinks(links, x), nextId)
    ensures DeleteRouterSpec(t, x).Keys == t.Keys - {x}
    ensures forall r | r in DeleteRouterSpec(t, x) :: !Linked(DeleteLinks(links, x), r, x)
  {
    var t' := DeleteRouterSpec(t, x);
    var links' := DeleteLinks(links, x);
    assert t'.Keys == t.Keys - {x};
    forall r | r in t' ensures RouterShaped(t', r) {
      DeleteRouterShapedAt(t, x, r);
    }
    forall r | r in t' ensures NeighborsOf(t', links', r) {
      DeleteRouterNeighborsAt(t, links, x, r);
    }
    forall k | k in links' ensures LinkShaped(t', links', k) {
      assert LinkShaped(t, links, k);
    }
  }

  lemma DeleteRouterShapedAt(t: RouterTable, x: nat, r: nat)
    requires VectorsShaped(t) && r in t && r != x
    ensures r in DeleteRouterSpec(t, x) && RouterShaped(DeleteRouterSpec(t, x), r)
  {
    var t' := DeleteRouterSpec(t, x);
    assert t'.Keys == t.Keys - {x};
    assert RouterShaped(t, r);
    assert t'[r] == Forget(t[r], x);
  }

  lemma DeleteRouterNeighborsAt(t: RouterTable, links: LinkTable, x: nat, r: nat)
    requires NeighborsMatch(t, links) && r in t && r != x
    ensures r in DeleteRouterSpec(t, x) && NeighborsOf(DeleteRouterSpec(t, x), DeleteLinks(links, x), r)
  {
    var t' := DeleteRouterSpec(t, x);
    var links' := DeleteLinks(links, x);
    assert NeighborsOf(t, links, r);
    assert t'[r] == Forget(t[r], x);
    forall n: nat ensures n in t'[r].neighbors <==> Linked(links', r, n) {
      assert n in t'[r].neighbors <==> n in t[r].neighbors && n != x;
      assert Linked(links', r, n) <==> Linked(links, r, n) && n != x;
    }
  }

  // ----- addLink -----

  /** What addLink reports: it refuses a self-link and a second link between the same pair. */
  datatype LinkOutcome = Added | SelfLink | DuplicateLink

  function AddLinkOutcome(links: LinkTable, a: nat, b: nat): LinkOutcome
  {
    if a == b then SelfLink
    else if Linked(links, a, b) then DuplicateLink
    else Added
  }

  /** One endpoint of a new link: the other end becomes a neighbour, reachable directly at `cost`. */
  function Connect(e: RouterState, other: nat, cost: int): RouterState
  {
    e.(neighbors := e.neighbors + [other],
       distanceVector := e.distanceVector[other := Fin(cost)],
       nextHop := e.nextHop[other := Some(other)])
  }

  function AddLinkSpec(t: RouterTable, a: nat, b: nat, cost: int): RouterTable
    requires a in t && b in t
  {
    t[a := Connect(t[a], b, cost)][b := Connect(t[b], a, cost)]
  }

  /**
    A link between two distinct, unlinked routers keeps the invariant, is
    seen at the same cost from both ends, and seeds both direct entries
    (each end reaches the other at `cost`, with the other as next hop).
  */
  lemma AddLinkKeepsInvariant(t: RouterTable, links: LinkTable, nextId: nat, a: nat, b: nat, cost: int)
    requires TableInv(t, links, nextId)
    requires a in t && b in t && AddLinkOutcome(links, a, b) == Added && cost >= 1
    ensures TableInv(AddLinkSpec(t, a, b, cost), links[(a, b) := cost], nextId)
    ensures LinkCost(links[(a, b) := cost], a, b) == Fin(cost)
    ensures LinkCost(links[(a, b) := cost], b, a) == Fin(cost)
    ensures AddLinkSpec(t, a, b, cost)[a].distanceVector[b] == Fin(cost)
    ensures AddLinkSpec(t, a, b, cost)[b].distanceVector[a] == Fin(cost)
    ensures AddLinkSpec(t, a, b, cost)[a].nextHop[b] == Some(b)
    ensures AddLinkSpec(t, a, b, cost)[b].nextHop[a] == Some(a)
  {
    AddLinkTableInv(t, links, nextId, a, b, cost);
    AddLinkDirect(t, a, b, cost);
    LinkCostAdded(links, a, b, cost);
  }

  lemma AddLinkTableInv(t: RouterTable, links: LinkTable, nextId: nat, a: nat, b: nat, cost: int)
    requires TableInv(t, links, nextId)
    requires a in t && b in t && AddLinkOutcome(links, a, b) == Added && cost >= 1
    ensures TableInv(AddLinkSpec(t, a, b, cost), links[(a, b) := cost], nextId)
  {
    var t' := AddLinkSpec(t, a, b, cost);
    var links' := links[(a, b) := cost];
    assert t'.Keys == t.Keys;
    forall r | r in t' ensures RouterShaped(t', r) {
      AddLinkShapedAt(t, a, b, cost, r);
    }
    forall r | r in t' ensures NeighborsOf(t', links', r) {
      AddLinkNeighborsAt(t, links, a, b, cost, r);
    }
    AddLinkLinksShaped(t, links, a, b, cost);
  }

  /** Both ends of the new link reach each other directly at `cost`. */
  lemma AddLinkDirect(t: RouterTable, a: nat, b: nat, cost: int)
    requires VectorsShaped(t) && a in t && b in t && a != b
    ensures AddLinkSpec(t, a, b, cost)[a].distanceVector[b] == Fin(cost)
    ensures AddLinkSpec(t, a, b, cost)[b].distanceVector[a] == Fin(cost)
    ensures AddLinkSpec(t, a, b, cost)[a].nextHop[b] == Some(b)
    ensures AddLinkSpec(t, a, b, cost)[b].nextHop[a] == Some(a)
  {
    assert RouterShaped(t, a) && RouterShaped(t, b);
  }

  /** The new link is seen at its cost from both ends. */
  lemma LinkCostAdded(links: LinkTable, a: nat, b: nat, cost: int)
    requires AddLinkOutcome(links, a, b) == Added
    ensures LinkCost(links[(a, b) := cost], a, b) == Fin(cost)
    ensures LinkCost(links[(a, b) := cost], b, a) == Fin(cost)
  {
  }

  /** The new link joins two distinct existing routers, in one orientation only. */
  lemma AddLinkLinksShaped(t: RouterTable, links: LinkTable, a: nat, b: nat, cost: int)
    requires LinksShaped(t, links)
    requires a in t && b in t && AddLinkOutcome(links, a, b) == Added && cost >= 1
    ensures LinksShaped(AddLinkSpec(t, a, b, cost), links[(a, b) := cost])
  {
    var t' := AddLinkSpec(t, a, b, cost);
    var links' := links[(a, b) := cost];
    assert t'.Keys == t.Keys;
    forall k | k in links' ensures LinkShaped(t', links', k) {
      if k != (a, b) {
        assert LinkShaped(t, links, k);
      }
    }
  }

  lemma AddLinkShapedAt(t: RouterTable, a: nat, b: nat, cost: int, r: nat)
    requires VectorsShaped(t) && a in t && b in t && a != b && r in t
    ensures r in AddLinkSpec(t, a, b, cost) && RouterShaped(AddLinkSpec(t, a, b, cost), r)
  {
    var t' := AddLinkSpec(t, a, b, cost);
    assert t'.Keys == t.Keys;
    assert RouterShaped(t, r);
    if r == a {
      assert t'[r] == Connect(t[a], b, cost);
    } else if r == b {
      assert t'[r] == Connect(t[b], a, cost);
    } else {
      assert t'[r] == t[r];
    }
  }

  lemma AddLinkNeighborsAt(t: RouterTable, links: LinkTable, a: nat, b: nat, cost: int, r: nat)
    requires NeighborsMatch(t, links) && a in t && b in t && AddLinkOutcome(links, a, b) == Added && r in t
    ensures r in AddLinkSpec(t, a, b, cost) && NeighborsOf(AddLinkSpec(t, a, b, cost), links[(a, b) := cost], r)
  {
    var t' := AddLinkSpec(t, a, b, cost);
    var links' := links[(a, b) := cost];
    assert NeighborsOf(t, links, r);
    if r == a || r == b {
      var other := if r == a then b else a;
      assert other !in t[r].neighbors;
      assert t'[r] == Connect(t[r], other, cost);
      forall n: nat ensures n in t'[r].neighbors <==> Linked(links', r, n) {
        assert n in t'[r].neighbors <==> n in t[r].neighbors || n == other;
      }
    } else {
      assert t'[r] == t[r];
      forall n: nat ensures n in t'[r].neighbors <==> Linked(links', r, n) {
        assert Linked(links', r, n) <==> Linked(links, r, n);
      }
    }
  }
}
