/**
  When findPath cannot loop. Relaxation only ever lowers a cost, and it
  lowers router `r`'s cost for `d` to a link cost of at least 1 plus what
  the new next hop holds for `d`. So, as long as nothing raises a cost, every
  next hop holds a strictly lower cost than the router pointing at it, and
  the next-hop chain toward a destination can only descend until it arrives.
  This module states that invariant, shows that the engine, addRouter and an
  addLink that raises no entry keep it, and shows that under it findPath
  finds a path exactly when the source holds a finite cost. deleteRouter does
  not keep it: the entries that went through the deleted router stay, and
  StaleRoutes runs the engine to a fixed point where findPath loops. A
  deleteRouter that rebuilds every vector from the direct links does keep it.
*/
module Descent {
  import opened Wrappers
  import opened Costs
  import opened Links
  import opened Relaxation
  import opened Topology
  import opened Engine
  import opened Paths
  import opened Globals

  /** What router `r` holds for `d`, Infinity when it holds nothing. */
  function Dist(t: RouterTable, r: nat, d: nat): Cost
  {
    if r in t && d in t[r].distanceVector then t[r].distanceVector[d] else Inf
  }

  /** Router `r`'s next hop toward `d`, if it has one, exists and is `d` itself or holds a strictly lower cost for `d`. */
  ghost predicate HopDescends(t: RouterTable, r: nat, d: nat)
    requires r in t
  {
    match HopToward(t, r, d)
    case None => true
    case Some(h) => h in t && (h == d || Less(Dist(t, h, d), Dist(t, r, d)))
  }

  /** Costs strictly fall along every next hop that does not arrive. */
  ghost predicate Descends(t: RouterTable)
  {
    forall r, d | r in t :: HopDescends(t, r, d)
  }

  /** No link joins a router to itself and every link costs at least 1. */
  predicate LinksPositive(links: LinkTable)
  {
    forall k | k in links :: k.0 != k.1 && links[k] >= 1
  }

  lemma LessTrans(a: Cost, b: Cost, c: Cost)
    requires Less(a, b) && Less(b, c)
    ensures Less(a, c)
  {
  }

  lemma LessAtMost(a: Cost, b: Cost, c: Cost)
    requires AtMost(a, b) && Less(b, c)
    ensures Less(a, c)
  {
  }

  lemma InvariantLinksPositive(t: RouterTable, links: LinkTable, nextId: nat)
    requires TableInv(t, links, nextId)
    ensures LinksPositive(links)
  {
    forall k | k in links ensures k.0 != k.1 && links[k] >= 1 {
      assert LinkShaped(t, links, k);
    }
  }

  // ----- findPath under the invariant -----

  /** A duplicate-free sequence drawn from `s` is no longer than `s`. */
  lemma {:induction false} DistinctWithin(p: seq<nat>, s: set<nat>)
    requires Distinct(p) && forall i | 0 <= i < |p| :: p[i] in s
    ensures |p| <= |s|
    decreases |p|
  {
    if p != [] {
      var last := p[|p| - 1];
      var q := p[..|p| - 1];
      forall i | 0 <= i < |q| ensures q[i] in s - {last} {
        assert q[i] == p[i];
      }
      DistinctWithin(q, s - {last});
    }
  }

  /** Every router on `path` exists, none is `to`, and the costs for `to` strictly fall along it. */
  ghost predicate Descending(t: RouterTable, to: nat, path: seq<nat>)
  {
    && (forall i | 0 <= i < |path| :: path[i] in t && path[i] != to)
    && (forall i, j | 0 <= i < j < |path| :: Less(Dist(t, path[j], to), Dist(t, path[i], to)))
  }

  /** A descending path is duplicate-free, so it leaves room in the network for `to`. */
  lemma DescendingShort(t: RouterTable, to: nat, path: seq<nat>)
    requires to in t && Descending(t, to, path)
    ensures |path| < |t|
  {
    forall i, j | 0 <= i < j < |path| ensures path[i] != path[j] {
      assert Less(Dist(t, path[j], to), Dist(t, path[i], to));
    }
    DistinctWithin(path, t.Keys - {to});
    assert |t.Keys - {to}| == |t| - 1;
  }

  /**
    Following next hops from a descending path whose last router holds a
    finite cost arrives at `to` within the walk's limit.
  */
  lemma {:induction false} WalkArrives(t: RouterTable, to: nat, path: seq<nat>)
    requires VectorsShaped(t) && Descends(t) && to in t
    requires 0 < |path| && Descending(t, to, path)
    requires Dist(t, path[|path| - 1], to) != Inf
    ensures |path| < |t|
    ensures Walk(t, to, path, |t|).Success?
    decreases |t| - |path|
  {
    DescendingShort(t, to, path);
    var cur := path[|path| - 1];
    assert RouterShaped(t, cur);
    assert HopDescends(t, cur, to);
    var h := HopToward(t, cur, to).value;
    var next := path + [h];
    assert Walk(t, to, path, |t|) == Walk(t, to, next, |t|);
    if h != to {
      forall i | 0 <= i < |path| ensures Less(Dist(t, h, to), Dist(t, path[i], to)) {
        if i < |path| - 1 {
          LessTrans(Dist(t, h, to), Dist(t, cur, to), Dist(t, path[i], to));
        }
      }
      assert Descending(t, to, next) by {
        forall i, j | 0 <= i < j < |next| ensures Less(Dist(t, next[j], to), Dist(t, next[i], to)) {
          if j < |path| {
            assert next[i] == path[i] && next[j] == path[j];
          }
        }
      }
      WalkArrives(t, to, next);
    }
  }

  /**
    On tables that keep the invariant, findPath between two distinct routers
    finds a path exactly when the source holds a finite cost, and otherwise
    reports the destination unreachable: never a loop, an incomplete path or
    a deleted router.
  */
  lemma DescentFindsPath(t: RouterTable, from: nat, to: nat)
    requires VectorsShaped(t) && Descends(t) && from in t && to in t && from != to
    ensures to in t[from].distanceVector
    ensures FindPathSpec(t, true, from, to).Found? <==> t[from].distanceVector[to] != Inf
    ensures !FindPathSpec(t, true, from, to).Found? ==> FindPathSpec(t, true, from, to) == Failed(Unreachable)
  {
    assert RouterShaped(t, from);
    if t[from].distanceVector[to] != Inf {
      WalkArrives(t, to, [from]);
    }
  }

  // ----- the engine keeps the invariant -----

  /** One router's entry after processing `cur`, for a router other than `cur`. */
  lemma ProcessOtherDescends(t: RouterTable, links: LinkTable, cur: nat, reading: Reading, x: nat, d: nat)
    requires Descends(t) && cur in t && x in t && x != cur
    ensures HopDescends(ProcessRouter(t, links, cur, reading), x, d)
  {
    var r := ProcessRouter(t, links, cur, reading);
    assert HopDescends(t, x, d);
    assert HopToward(r, x, d) == HopToward(t, x, d);
    if HopToward(t, x, d).Some? {
      var h := HopToward(t, x, d).value;
      if h != d {
        assert Dist(r, x, d) == Dist(t, x, d);
        assert AtMost(Dist(r, h, d), Dist(t, h, d));
        LessAtMost(Dist(r, h, d), Dist(t, h, d), Dist(r, x, d));
      }
    }
  }

  /**
    An entry the relaxation lowers now names a neighbour, other than the
    router itself, whose received vector holds strictly less for `d`.
  */
  lemma LoweredEntry(self: nat, dv: Vector, nh: Hops, ns: seq<nat>,
                     received: Received, links: LinkTable, reading: Reading, d: nat)
    requires LinksPositive(links) && d in dv && d in nh
    requires RelaxVector(self, dv, nh, ns, received, links, reading).0[d] != dv[d]
    ensures var v := RelaxVector(self, dv, nh, ns, received, links, reading);
      exists n :: n in received && n != self && v.1[d] == Some(n) && d in received[n] && Less(received[n][d], v.0[d])
  {
    var v := RelaxVector(self, dv, nh, ns, received, links, reading);
    RelaxVectorImproved(self, dv, nh, ns, received, links, reading, d);
    var k :| 0 <= k < |ns| && ns[k] in received &&
             v.0[d] == Candidate(self, ns[k], d, received, links, reading) && v.1[d] == Some(ns[k]);
    var n := ns[k];
    assert Less(v.0[d], dv[d]);
    var c := LinkCost(links, self, n);
    var o := Offered(received[n], d, reading);
    assert c.Fin? && o.Fin?;
    assert c.value >= 1 && n != self;
    assert d in received[n] && o == received[n][d];
  }

  /** The entry `cur` lowers points at a neighbour holding strictly less. */
  lemma ProcessLoweredDescends(t: RouterTable, links: LinkTable, cur: nat, reading: Reading, d: nat)
    requires LinksPositive(links) && cur in t
    requires d in t[cur].nextHop && d in t[cur].distanceVector
    requires Relaxed(t, links, cur, reading).0[d] != t[cur].distanceVector[d]
    ensures HopDescends(ProcessRouter(t, links, cur, reading), cur, d)
  {
    var r := ProcessRouter(t, links, cur, reading);
    var e := t[cur];
    var rv := ReceivedVectors(t, cur);
    var v := Relaxed(t, links, cur, reading);
    assert r[cur].distanceVector == v.0 && r[cur].nextHop == v.1;
    LoweredEntry(cur, e.distanceVector, e.nextHop, e.neighbors, rv, links, reading, d);
    var n :| n in rv && n != cur && v.1[d] == Some(n) && d in rv[n] && Less(rv[n][d], v.0[d]);
    assert Dist(r, n, d) == rv[n][d];
  }

  /** Processing one router keeps the invariant. */
  lemma ProcessRouterDescends(t: RouterTable, links: LinkTable, cur: nat, reading: Reading)
    requires VectorsShaped(t) && Descends(t) && LinksPositive(links) && cur in t
    ensures Descends(ProcessRouter(t, links, cur, reading))
  {
    var r := ProcessRouter(t, links, cur, reading);
    forall x, d | x in r ensures HopDescends(r, x, d) {
      if x != cur {
        ProcessOtherDescends(t, links, cur, reading, x, d);
      } else if d in t[cur].nextHop && d in t[cur].distanceVector &&
                Relaxed(t, links, cur, reading).0[d] != t[cur].distanceVector[d] {
        ProcessLoweredDescends(t, links, cur, reading, d);
      } else {
        ProcessKeptDescends(t, links, cur, reading, d);
      }
    }
  }

  /** An entry `cur` leaves alone keeps its next hop, and that hop is not `cur`. */
  lemma ProcessKeptDescends(t: RouterTable, links: LinkTable, cur: nat, reading: Reading, d: nat)
    requires VectorsShaped(t) && Descends(t) && cur in t
    requires d in t[cur].nextHop && d in t[cur].distanceVector ==>
               Relaxed(t, links, cur, reading).0[d] == t[cur].distanceVector[d]
    ensures HopDescends(ProcessRouter(t, links, cur, reading), cur, d)
  {
    var r := ProcessRouter(t, links, cur, reading);
    assert RouterShaped(t, cur);
    assert HopDescends(t, cur, d);
    assert r[cur].nextHop == Relaxed(t, links, cur, reading).1;
    if d in t[cur].nextHop {
      assert HopToward(r, cur, d) == HopToward(t, cur, d);
      assert Dist(r, cur, d) == Dist(t, cur, d);
    }
  }

  lemma ClearFlagsDescends(t: RouterTable)
    requires Descends(t)
    ensures Descends(ClearFlags(t))
  {
    var r := ClearFlags(t);
    forall x, d | x in r ensures HopDescends(r, x, d) {
      assert HopDescends(t, x, d);
      assert HopToward(r, x, d) == HopToward(t, x, d);
    }
  }

  /** A round keeps the invariant. */
  lemma {:induction false} RunRoundDescends(t: RouterTable, links: LinkTable, nextId: nat, ids: seq<nat>, reading: Reading)
    requires TableInv(t, links, nextId) && Descends(t) && forall i | i in ids :: i in t
    ensures Descends(RunRound(t, links, ids, reading))
    decreases |ids|
  {
    if ids != [] {
      var s := RunRound(t, links, ids[..|ids| - 1], reading);
      RunRoundDescends(t, links, nextId, ids[..|ids| - 1], reading);
      RunRoundKeepsInvariant(t, links, nextId, ids[..|ids| - 1], reading);
      InvariantLinksPositive(s, links, nextId);
      ProcessRouterDescends(s, links, ids[|ids| - 1], reading);
    }
  }

  /** A round after clearing the flags keeps both invariants. */
  lemma RoundDescends(s: RouterTable, links: LinkTable, nextId: nat, ids: seq<nat>, reading: Reading)
    requires TableInv(s, links, nextId) && Descends(s) && forall i | i in ids :: i in s
    ensures TableInv(RunRound(ClearFlags(s), links, ids, reading), links, nextId)
    ensures Descends(RunRound(ClearFlags(s), links, ids, reading))
  {
    ClearFlagsKeepsInvariant(s, links, nextId);
    ClearFlagsDescends(s);
    RunRoundKeepsInvariant(ClearFlags(s), links, nextId, ids, reading);
    RunRoundDescends(ClearFlags(s), links, nextId, ids, reading);
  }

  /** Any number of rounds keeps the invariant, and the topology invariant with it. */
  lemma {:induction false} RoundsDescends(t: RouterTable, links: LinkTable, nextId: nat, ids: seq<nat>, n: nat, reading: Reading)
    requires TableInv(t, links, nextId) && Descends(t) && forall i | i in ids :: i in t
    ensures TableInv(Rounds(t, links, ids, n, reading), links, nextId)
    ensures Descends(Rounds(t, links, ids, n, reading))
  {
    if n > 0 {
      RoundsDescends(t, links, nextId, ids, n - 1, reading);
      RoundDescends(Rounds(t, links, ids, n - 1, reading), links, nextId, ids, reading);
    }
  }

  /** A finished run from tables that keep the invariant ends on tables that keep it. */
  lemma EndedDescends(t: RouterTable, r: RouterTable, links: LinkTable, nextId: nat, ids: seq<nat>, converged: bool, iteration: nat)
    requires TableInv(t, links, nextId) && Descends(t) && forall i | i in ids :: i in t
    requires RunEnded(t, r, links, ids, converged, iteration)
    ensures Descends(r)
  {
    EndedRounds(t, r, links, ids, converged, iteration);
    RoundsDescends(t, links, nextId, ids, iteration + (if converged then 1 else 0), ZeroAsInfinity);
  }

  /** A finished run is the rounds it completed. */
  lemma EndedRounds(t: RouterTable, r: RouterTable, links: LinkTable, ids: seq<nat>, converged: bool, iteration: nat)
    requires forall i | i in ids :: i in t
    requires RunEnded(t, r, links, ids, converged, iteration)
    ensures r == Rounds(t, links, ids, iteration + (if converged then 1 else 0), ZeroAsInfinity)
  {
  }

  /** runDvr keeps the invariant. */
  lemma RunDvrDescends(n: Net)
    requires NetValid(n) && !n.simulationRunning && Descends(n.routers)
    ensures Descends(RunDvrSpec(n).routers)
  {
    if |n.routers| < 2 {
      RunDvrFewRouters(n);
    } else {
      var r := RunDvrSpec(n);
      RunDvrRounds(n);
      SortedIdsEnumerate(n.routers, n.nextRouterId);
      EndedDescends(n.routers, r.routers, n.links, n.nextRouterId, Ids(n), r.isConverged, r.currentIteration);
    }
  }

  /**
    From globals that keep the invariant, runDvr leaves tables on which
    findPath, once the run has converged, finds a path between any two
    distinct routers exactly when the source holds a finite cost, and
    otherwise reports the destination unreachable.
  */
  lemma RunDvrFindsPath(n: Net, from: nat, to: nat)
    requires NetValid(n) && !n.simulationRunning && Descends(n.routers)
    requires from in n.routers && to in n.routers && from != to
    ensures var r := RunDvrSpec(n);
      && from in r.routers && to in r.routers && to in r.routers[from].distanceVector
      && (r.isConverged ==>
            && (FindPathSpec(r.routers, true, from, to).Found? <==> r.routers[from].distanceVector[to] != Inf)
            && (!FindPathSpec(r.routers, true, from, to).Found? ==> FindPathSpec(r.routers, true, from, to) == Failed(Unreachable)))
  {
    RunDvrValid(n);
    RunDvrDescends(n);
    var r := RunDvrSpec(n);
    DescentFindsPath(r.routers, from, to);
  }

  // ----- the editing operations -----

  /** The empty network of a page load or a reset keeps the invariant. */
  lemma InitialDescends()
    ensures Descends(Initial().routers)
  {
  }

  /** addRouter keeps the invariant: the new router has no next hops, and nobody has one toward it. */
  lemma AddRouterDescends(t: RouterTable, id: nat)
    requires Descends(t) && id !in t
    ensures Descends(AddRouterSpec(t, id))
  {
    var r := AddRouterSpec(t, id);
    forall x, d | x in r ensures HopDescends(r, x, d) {
      AddRouterDescendsAt(t, id, x, d);
    }
  }

  lemma AddRouterDescendsAt(t: RouterTable, id: nat, x: nat, d: nat)
    requires Descends(t) && id !in t && x in AddRouterSpec(t, id)
    ensures HopDescends(AddRouterSpec(t, id), x, d)
  {
    var r := AddRouterSpec(t, id);
    if x == id || d == id {
      assert HopToward(r, x, d) == None;
    } else {
      assert HopDescends(t, x, d);
      assert HopToward(r, x, d) == HopToward(t, x, d);
      if HopToward(t, x, d).Some? {
        var h := HopToward(t, x, d).value;
        assert Dist(r, x, d) == Dist(t, x, d) && Dist(r, h, d) == Dist(t, h, d);
      }
    }
  }

  /**
    addLink keeps the invariant when the new direct cost raises neither
    endpoint's entry for the other: both new next hops arrive at once, and
    every other cost stays or falls.
  */
  lemma AddLinkDescends(t: RouterTable, a: nat, b: nat, cost: int)
    requires Descends(t) && a in t && b in t && a != b
    requires AtMost(Fin(cost), Dist(t, a, b)) && AtMost(Fin(cost), Dist(t, b, a))
    ensures Descends(AddLinkSpec(t, a, b, cost))
  {
    var r := AddLinkSpec(t, a, b, cost);
    forall x, d | x in r ensures HopDescends(r, x, d) {
      AddLinkDescendsAt(t, a, b, cost, x, d);
    }
  }

  lemma AddLinkDescendsAt(t: RouterTable, a: nat, b: nat, cost: int, x: nat, d: nat)
    requires Descends(t) && a in t && b in t && a != b && x in t
    requires AtMost(Fin(cost), Dist(t, a, b)) && AtMost(Fin(cost), Dist(t, b, a))
    ensures HopDescends(AddLinkSpec(t, a, b, cost), x, d)
  {
    var r := AddLinkSpec(t, a, b, cost);
    if (x, d) == (a, b) || (x, d) == (b, a) {
      assert HopToward(r, x, d) == Some(d);
    } else {
      assert HopDescends(t, x, d);
      assert HopToward(r, x, d) == HopToward(t, x, d);
      assert Dist(r, x, d) == Dist(t, x, d);
      if HopToward(t, x, d).Some? && HopToward(t, x, d).value != d {
        var h := HopToward(t, x, d).value;
        assert AtMost(Dist(r, h, d), Dist(t, h, d));
        LessAtMost(Dist(r, h, d), Dist(t, h, d), Dist(r, x, d));
      }
    }
  }

  // ----- deleteRouter, corrected -----

  /** Router `r` rebuilt from its direct links alone: 0 to itself, the link cost to each router it is linked to, Infinity elsewhere. */
  function Rebuilt(t: RouterTable, links: LinkTable, r: nat): RouterState
    requires r in t
  {
    RouterState(t[r].neighbors,
                map d | d in t :: if d == r then Fin(0) else LinkCost(links, r, d),
                map d | d in t && d != r :: if LinkCost(links, r, d).Fin? then Some(d) else None,
                t[r].updatedInIteration)
  }

  function RebuildAll(t: RouterTable, links: LinkTable): RouterTable
  {
    map r | r in t :: Rebuilt(t, links, r)
  }

  /**
    deleteRouter as its callers need it: the router and its links go as
    before, and every remaining vector is rebuilt from the direct links that
    are left, so that no entry can still go through the deleted router.
  */
  function DeleteRouterRebuilt(t: RouterTable, links: LinkTable, x: nat): RouterTable
  {
    RebuildAll(DeleteRouterSpec(t, x), DeleteLinks(links, x))
  }

  lemma RebuiltEntries(t: RouterTable, links: LinkTable, r: nat)
    requires r in t
    ensures var e := Rebuilt(t, links, r);
      && e.distanceVector.Keys == t.Keys
      && e.nextHop.Keys == t.Keys - {r}
      && e.distanceVector[r] == Fin(0)
      && HopsMatch(e.distanceVector, e.nextHop)
  {
    var e := Rebuilt(t, links, r);
    assert e.nextHop.Keys == t.Keys - {r};
  }

  lemma RebuiltShaped(t: RouterTable, links: LinkTable, nextId: nat, r: nat)
    requires TableInv(t, links, nextId) && r in t
    ensures RouterShaped(RebuildAll(t, links), r) && NeighborsOf(RebuildAll(t, links), links, r)
  {
    var u := RebuildAll(t, links);
    assert u.Keys == t.Keys && u[r] == Rebuilt(t, links, r);
    RebuiltEntries(t, links, r);
    assert NeighborsOf(t, links, r);
  }

  /**
    Rebuilding every vector from the direct links keeps the topology
    invariant and establishes the descent invariant: every next hop is the
    destination itself.
  */
  lemma RebuildKeeps(t: RouterTable, links: LinkTable, nextId: nat)
    requires TableInv(t, links, nextId)
    ensures RebuildAll(t, links).Keys == t.Keys
    ensures TableInv(RebuildAll(t, links), links, nextId)
    ensures Descends(RebuildAll(t, links))
    ensures forall r, d | r in t && d in t && d != r :: Dist(RebuildAll(t, links), r, d) == LinkCost(links, r, d)
  {
    var u := RebuildAll(t, links);
    forall r | r in u ensures RouterShaped(u, r) && NeighborsOf(u, links, r) {
      RebuiltShaped(t, links, nextId, r);
    }
    forall k | k in links ensures LinkShaped(u, links, k) {
      assert LinkShaped(t, links, k);
    }
    forall r: nat, d: nat | r in u ensures HopDescends(u, r, d) {
      assert HopToward(u, r, d).Some? ==> HopToward(u, r, d) == Some(d) && d in t;
    }
  }

  /**
    The corrected deleteRouter keeps both invariants, so every later run
    ends on tables where findPath cannot loop (RunDvrFindsPath).
  */
  lemma DeleteRouterRebuiltKeeps(t: RouterTable, links: LinkTable, nextId: nat, x: nat)
    requires TableInv(t, links, nextId) && x in t
    ensures DeleteRouterRebuilt(t, links, x).Keys == t.Keys - {x}
    ensures TableInv(DeleteRouterRebuilt(t, links, x), DeleteLinks(links, x), nextId)
    ensures Descends(DeleteRouterRebuilt(t, links, x))
  {
    DeleteRouterKeepsInvariant(t, links, nextId, x);
    RebuildKeeps(DeleteRouterSpec(t, x), DeleteLinks(links, x), nextId);
  }
}
