/**
  The operations of script.js on its globals: addRouter, deleteRouter,
  addLink, runDvrStep, runDvr, resetSimulation and the read-only findPath.
  Each works on the values of the globals (the routers' states are kept as
  values, keyed by id; a step loads the current router into a Router object
  to update it), and the `Network` object holds the globals and stores each
  operation's result.
*/
module Simulation {
  import opened Wrappers
  import opened Costs
  import opened Links
  import opened Relaxation
  import opened Topology
  import opened Engine
  import opened Paths
  import opened Routers
  import opened Globals

  // ----- runDvrStep and runDvr, on the values of the globals -----

  /** `for (const id in routers) routers[id].updatedInIteration = false`. */
  method ClearAllFlags(t: RouterTable) returns (r: RouterTable)
    ensures r == ClearFlags(t)
  {
    r := t;
    var rest := t.Keys;
    while rest != {}
      invariant rest <= t.Keys && r.Keys == t.Keys
      invariant forall i | i in t :: r[i] == if i in rest then t[i] else t[i].(updatedInIteration := false)
      decreases rest
    {
      var id :| id in rest;
      r := r[id := r[id].(updatedInIteration := false)];
      rest := rest - {id};
    }
  }

  /**
    `receivedVectors[neighbor] = {...routers[neighbor].distanceVector}` for
    each neighbour of `cur`; the neighbours must exist, as the copy reads
    their vectors.
  */
  method GatherVectors(t: RouterTable, cur: nat) returns (rv: Received)
    requires cur in t && forall n | n in t[cur].neighbors :: n in t
    ensures rv == ReceivedVectors(t, cur)
  {
    var neighbors := t[cur].neighbors;
    rv := map[];
    var i := 0;
    while i < |neighbors|
      invariant i <= |neighbors|
      invariant rv == map n | n in neighbors[..i] :: t[n].distanceVector
    {
      var neighbor := neighbors[i];
      assert neighbors[..i + 1] == neighbors[..i] + [neighbor];
      rv := rv[neighbor := t[neighbor].distanceVector];
      i := i + 1;
    }
    assert neighbors[..i] == neighbors;
  }

  /**
    `currentRouter.updateDistanceVector(receivedVectors)` on the stored
    state of router `cur`: exactly one processing step of the engine.
  */
  method UpdateRouter(t: RouterTable, links: LinkTable, cur: nat) returns (r: RouterTable, updated: bool)
    requires cur in t && forall n | n in t[cur].neighbors :: n in t
    requires forall d | d in t[cur].distanceVector && d != cur :: d in t[cur].nextHop
    ensures r == ProcessRouter(t, links, cur, ZeroAsInfinity)
    ensures updated <==> r[cur].distanceVector != t[cur].distanceVector
  {
    var received := GatherVectors(t, cur);
    var router := new Router.Load(cur, t[cur]);
    updated := router.UpdateDistanceVector(received, links);
    r := t[cur := router.State()];
  }

  /** The round-end scan: is any router's `updatedInIteration` flag up? */
  method AnyUpdated(t: RouterTable, ids: seq<nat>) returns (anyUpdated: bool)
    requires forall i :: i in ids <==> i in t
    ensures anyUpdated <==> !NoneUpdated(t)
  {
    anyUpdated := false;
    var k := 0;
    while k < |ids|
      invariant k <= |ids|
      invariant forall j | 0 <= j < k :: !t[ids[j]].updatedInIteration
    {
      if t[ids[k]].updatedInIteration {
        anyUpdated := true;
        break;
      }
      k := k + 1;
    }
    if !anyUpdated {
      forall i | i in t ensures !t[i].updatedInIteration {
        var j :| 0 <= j < |ids| && ids[j] == i;
      }
    }
  }

  /**
    The routers' part of one runDvrStep: at the start of a round (`k == 0`)
    every flag is cleared, then router `ids[k]` is processed; after the last
    router of the round, the flags are scanned.
  */
  method StepRouters(t: RouterTable, links: LinkTable, ids: seq<nat>, k: nat) returns (r: RouterTable, anyUpdated: bool)
    requires VectorsShaped(t) && LinksShaped(t, links) && NeighborsMatch(t, links)
    requires Enumerates(ids, t) && k < |ids|
    ensures r == ProcessRouter(if k == 0 then ClearFlags(t) else t, links, ids[k], ZeroAsInfinity)
    ensures k + 1 == |ids| ==> (anyUpdated <==> !NoneUpdated(r))
  {
    var s := t;
    if k == 0 {
      s := ClearAllFlags(t);
    }
    var cur := ids[k];
    assert RouterShaped(t, cur) && NeighborsOf(t, links, cur);
    assert forall n | n in s[cur].neighbors :: Linked(links, cur, n);
    assert forall n | n in s[cur].neighbors :: n in t by {
      forall n | n in s[cur].neighbors ensures n in t {
        if (cur, n) in links {
          assert LinkShaped(t, links, (cur, n));
        } else {
          assert LinkShaped(t, links, (n, cur));
        }
      }
    }
    var updated;
    r, updated := UpdateRouter(s, links, cur);
    anyUpdated := false;
    if k + 1 == |ids| {
      anyUpdated := AnyUpdated(r, ids);
    }
  }

  /**
    runDvrStep: processes the next router in ascending id order (clearing
    every flag first when a round starts); after the last router, scans the
    flags to decide between convergence, another round and giving up.
  */
  method DvrStep(n: Net) returns (r: Net)
    requires NetValid(n) && n.simulationRunning
    ensures r == StepNet(n)
  {
    if |n.routers| < 2 {
      return n.(simulationRunning := false);
    }
    IdsCount(n.routers, n.nextRouterId);
    var routerIds := SortedIds(n.routers.Keys, n.nextRouterId);
    var t, anyUpdated := StepRouters(n.routers, n.links, routerIds, n.currentRouterIndex);
    var index := n.currentRouterIndex + 1;
    var iteration := n.currentIteration;
    var running := true;
    if index >= |routerIds| {
      index := 0;
      if !anyUpdated {
        return n.(routers := t, currentRouterIndex := 0, isConverged := true, simulationRunning := false);
      }
      iteration := iteration + 1;
      if iteration >= MaxIterations {
        running := false;
      }
    }
    r := n.(routers := t, currentRouterIndex := index, currentIteration := iteration, simulationRunning := running);
  }

  /**
    runDvr: unless a run is on, starts one from round 0 and calls
    runDvrStep until it reports the end (the 800 ms pauses between calls
    are not modelled).
  */
  method DvrRun(n: Net) returns (r: Net)
    requires NetValid(n)
    ensures r == RunDvrSpec(n)
  {
    if n.simulationRunning {
      return n;
    }
    r := Started(n);
    while r.simulationRunning
      invariant NetValid(r) && RunFrom(r) == RunFrom(Started(n))
      decreases r.simulationRunning, MaxIterations - r.currentIteration, |r.routers| - r.currentRouterIndex
    {
      StepNetValid(r);
      r := DvrStep(r);
    }
  }

  // ----- addRouter, addLink -----

  /** `new Router(id, x, y)`, as the state the new object holds. */
  method NewRouter(id: nat, existing: set<nat>) returns (s: RouterState)
    ensures s == FreshRouter(id, existing)
  {
    var router := new Router(id, existing);
    s := router.State();
  }

  /**
    The table after `new Router(id, x, y)` has registered `id` with every
    existing router and `routers[id] = router` has stored the new one.
  */
  method InsertRouter(routers: RouterTable, id: nat) returns (r: RouterTable)
    ensures r == AddRouterSpec(routers, id)
  {
    var created := NewRouter(id, routers.Keys);
    var registered := RegisterNewId(routers, id);
    assert registered == map i | i in routers :: Register(routers[i], id) by {
      forall i | i in routers ensures registered[i] == Register(routers[i], id) {
      }
    }
    r := registered[id := created];
  }

  /**
    The four updates addLink makes to the routers: each endpoint gets the
    other as a neighbour and a direct entry of `cost` through it.
  */
  method LinkRouters(t: RouterTable, a: nat, b: nat, cost: int) returns (r: RouterTable)
    requires a in t && b in t && a != b
    ensures r == AddLinkSpec(t, a, b, cost)
  {
    r := t;
    r := r[a := r[a].(neighbors := r[a].neighbors + [b])];
    r := r[b := r[b].(neighbors := r[b].neighbors + [a])];
    r := r[a := r[a].(distanceVector := r[a].distanceVector[b := Fin(cost)], nextHop := r[a].nextHop[b := Some(b)])];
    r := r[b := r[b].(distanceVector := r[b].distanceVector[a := Fin(cost)], nextHop := r[b].nextHop[a := Some(a)])];
    assert r[a] == Connect(t[a], b, cost);
    assert r[b] == Connect(t[b], a, cost);
  }

  // ----- deleteRouter, on the values of the globals -----

  /** Some key of `keys` links `i` and `x`, in either direction. */
  predicate Touched(keys: set<(nat, nat)>, i: nat, x: nat)
  {
    (i, x) in keys || (x, i) in keys
  }

  /** The keys of `keys` that touch `x`. */
  function Touching(keys: set<(nat, nat)>, x: nat): set<(nat, nat)>
  {
    set k | k in keys && (k.0 == x || k.1 == x)
  }

  lemma TouchingStep(keys: set<(nat, nat)>, x: nat, k: (nat, nat))
    ensures Touching(keys + {k}, x) == Touching(keys, x) + (if k.0 == x || k.1 == x then {k} else {})
  {
  }

  /** The routers once the links of `keys` that touch `x` have been detached from `x`. */
  function Detached(t: RouterTable, keys: set<(nat, nat)>, x: nat): (r: RouterTable)
    ensures r.Keys == t.Keys
  {
    map i | i in t :: if i != x && Touched(keys, i, x) then t[i].(neighbors := Without(t[i].neighbors, x)) else t[i]
  }

  /** Detaching one more link that touches `x` removes `x` from the other endpoint's list. */
  lemma DetachedStep(t: RouterTable, keys: set<(nat, nat)>, x: nat, k: (nat, nat), other: nat)
    requires k.0 != k.1 && (k.0 == x || k.1 == x) && other == (if k.0 == x then k.1 else k.0)
    requires other in t
    ensures var d := Detached(t, keys, x);
      Detached(t, keys + {k}, x) == d[other := d[other].(neighbors := Without(d[other].neighbors, x))]
  {
    var d := Detached(t, keys, x);
    DetachedOthers(t, keys, x, k, other);
    var s := t[other].neighbors;
    assert Without(Without(s, x), x) == Without(s, x);
    assert Detached(t, keys + {k}, x)[other] == d[other].(neighbors := Without(d[other].neighbors, x));
  }

  /** A link whose far endpoint is not a router detaches nothing. */
  lemma DetachedAbsent(t: RouterTable, keys: set<(nat, nat)>, x: nat, k: (nat, nat), other: nat)
    requires k.0 != k.1 && (k.0 == x || k.1 == x) && other == (if k.0 == x then k.1 else k.0)
    requires other !in t
    ensures Detached(t, keys + {k}, x) == Detached(t, keys, x)
  {
    DetachedOthers(t, keys, x, k, other);
  }

  /** Detaching a link of `x` leaves every router other than its far endpoint as it was. */
  lemma DetachedOthers(t: RouterTable, keys: set<(nat, nat)>, x: nat, k: (nat, nat), other: nat)
    requires k.0 != k.1 && (k.0 == x || k.1 == x) && other == (if k.0 == x then k.1 else k.0)
    ensures forall i | i in t && i != other :: Detached(t, keys + {k}, x)[i] == Detached(t, keys, x)[i]
  {
    forall i | i in t && i != other ensures Detached(t, keys + {k}, x)[i] == Detached(t, keys, x)[i] {
      assert Touched(keys + {k}, i, x) == Touched(keys, i, x);
    }
  }

  /** Detaching a link that does not touch `x` changes nothing. */
  lemma DetachedSkip(t: RouterTable, keys: set<(nat, nat)>, x: nat, k: (nat, nat))
    requires k.0 != x && k.1 != x
    ensures Detached(t, keys + {k}, x) == Detached(t, keys, x)
  {
  }

  /**
    `neighbors.splice(neighbors.indexOf(x), 1)` on router `other`, when it
    exists: `x` leaves its neighbour list, if it was there.
  */
  method SpliceNeighbor(r: RouterTable, other: nat, x: nat) returns (r': RouterTable)
    requires other in r ==> Distinct(r[other].neighbors)
    ensures other in r ==> r' == r[other := r[other].(neighbors := Without(r[other].neighbors, x))]
    ensures other !in r ==> r' == r
  {
    r' := r;
    if other in r {
      var neighbors := r[other].neighbors;
      var idx := IndexOf(neighbors, x);
      if idx != -1 {
        SpliceRemoves(neighbors, x);
        r' := r[other := r[other].(neighbors := neighbors[..idx] + neighbors[idx + 1..])];
      } else {
        assert r[other].(neighbors := Without(neighbors, x)) == r[other];
      }
    }
  }

  /**
    The loop over `links` in deleteRouter: it collects the keys of the
    links that touch `x` and splices `x` out of the neighbour list of each
    such link's other endpoint.
  */
  method DetachLinks(t: RouterTable, links: LinkTable, x: nat) returns (r: RouterTable, toRemove: set<(nat, nat)>)
    requires LinksShaped(t, links) && NeighborsMatch(t, links)
    ensures toRemove == Touching(links.Keys, x)
    ensures r == Detached(t, links.Keys, x)
  {
    r, toRemove := t, {};
    var rest := links.Keys;
    while rest != {}
      invariant rest <= links.Keys
      invariant toRemove == Touching(links.Keys - rest, x)
      invariant r == Detached(t, links.Keys - rest, x)
      decreases rest
    {
      var k :| k in rest;
      var done := links.Keys - rest;
      assert links.Keys - (rest - {k}) == done + {k};
      assert LinkShaped(t, links, k);
      TouchingStep(done, x, k);
      if k.0 == x || k.1 == x {
        toRemove := toRemove + {k};
        var other := if k.0 == x then k.1 else k.0;
        DistinctDetached(t, links, done, x, other);
        if other in t {
          DetachedStep(t, done, x, k, other);
        } else {
          DetachedAbsent(t, done, x, k, other);
        }
        r := SpliceNeighbor(r, other, x);
      } else {
        DetachedSkip(t, done, x, k);
      }
      rest := rest - {k};
    }
    assert links.Keys - rest == links.Keys;
  }

  /** Neighbour lists stay duplicate-free while links are detached. */
  lemma DistinctDetached(t: RouterTable, links: LinkTable, keys: set<(nat, nat)>, x: nat, other: nat)
    requires NeighborsMatch(t, links) && other in t
    ensures Distinct(Detached(t, keys, x)[other].neighbors)
  {
    assert NeighborsOf(t, links, other);
  }

  /** Detaching every link of `x` and then forgetting `x` is deleteRouter's effect on the routers. */
  lemma DroppedDetached(t: RouterTable, links: LinkTable, x: nat)
    requires NeighborsMatch(t, links)
    ensures var d := Detached(t, links.Keys, x);
      (map i | i in d && i != x :: d[i].(distanceVector := d[i].distanceVector - {x}, nextHop := d[i].nextHop - {x}))
      == DeleteRouterSpec(t, x)
  {
    DetachedAll(t, links, x);
  }

  /** Removing the links that touch `x` is deleteRouter's effect on the links. */
  lemma RemovedTouching(links: LinkTable, x: nat)
    ensures (map k | k in links && k !in Touching(links.Keys, x) :: links[k]) == DeleteLinks(links, x)
  {
  }

  /**
    Once every link has been looked at, each router other than `x` has lost
    `x` from its neighbour list (those never linked to `x` never had it).
  */
  lemma DetachedAll(t: RouterTable, links: LinkTable, x: nat)
    requires NeighborsMatch(t, links)
    ensures forall i | i in t && i != x ::
              Detached(t, links.Keys, x)[i] == t[i].(neighbors := Without(t[i].neighbors, x))
    ensures x in t ==> Detached(t, links.Keys, x)[x] == t[x]
  {
    forall i | i in t && i != x
      ensures Detached(t, links.Keys, x)[i] == t[i].(neighbors := Without(t[i].neighbors, x))
    {
      assert NeighborsOf(t, links, i);
    }
  }

  /** `for (const linkKey of linksToRemove) delete links[linkKey]`. */
  method RemoveLinks(links: LinkTable, toRemove: set<(nat, nat)>) returns (r: LinkTable)
    ensures r == map k | k in links && k !in toRemove :: links[k]
  {
    r := links;
    var rest := toRemove;
    while rest != {}
      invariant rest <= toRemove
      invariant r == map k | k in links && k !in toRemove - rest :: links[k]
      decreases rest
    {
      var k :| k in rest;
      r := r - {k};
      rest := rest - {k};
    }
  }

  /**
    The last two loops of deleteRouter: `x` leaves every other router's
    distance vector and next-hop table, then the table itself.
  */
  method DropRouter(t: RouterTable, x: nat) returns (r: RouterTable)
    ensures r == map i | i in t && i != x ::
                   t[i].(distanceVector := t[i].distanceVector - {x}, nextHop := t[i].nextHop - {x})
  {
    r := t;
    var rest := t.Keys;
    while rest != {}
      invariant rest <= t.Keys && r.Keys == t.Keys
      invariant forall i | i in t ::
                  r[i] == if i in rest || i == x then t[i]
                          else t[i].(distanceVector := t[i].distanceVector - {x}, nextHop := t[i].nextHop - {x})
      decreases rest
    {
      var id :| id in rest;
      if id != x {
        r := r[id := r[id].(distanceVector := r[id].distanceVector - {x}, nextHop := r[id].nextHop - {x})];
      }
      rest := rest - {id};
    }
    r := r - {x};
  }

  /** deleteRouter on an existing router `x`, as its three loops perform it. */
  method DeleteFromTables(t: RouterTable, links: LinkTable, x: nat) returns (r: RouterTable, l: LinkTable)
    requires LinksShaped(t, links) && NeighborsMatch(t, links)
    ensures r == DeleteRouterSpec(t, x)
    ensures l == DeleteLinks(links, x)
  {
    var detached, toRemove := DetachLinks(t, links, x);
    l := RemoveLinks(links, toRemove);
    r := DropRouter(detached, x);
    DroppedDetached(t, links, x);
    RemovedTouching(links, x);
  }

  /** The globals, as one object whose operations replace them. */
  class Network {
    var state: Net

    /** The invariant of the globals (see `NetValid`). */
    ghost predicate Valid()
      reads this
    {
      NetValid(state)
    }

    /** Page load: no routers, no links, the first id is 1. */
    constructor()
      ensures Valid() && state == Initial()
    {
      state := Initial();
    }

    /** resetSimulation: every router and link is gone and the counters start over. */
    method Reset()
      modifies this
      ensures Valid() && state == Initial()
    {
      state := Initial();
    }

    /**
      addRouter: a router with id `nextRouterId` joins, unreachable from and
      to everyone; every existing router learns the new id. The counter
      moves on by one.
    */
    method AddRouter() returns (id: nat)
      requires Valid() && !state.simulationRunning
      modifies this
      ensures Valid() && id == old(state.nextRouterId) && id !in old(state.routers)
      ensures state == old(state).(routers := AddRouterSpec(old(state.routers), id), nextRouterId := id + 1)
    {
      id := state.nextRouterId;
      var t := InsertRouter(state.routers, id);
      AddRouterKeepsInvariant(state.routers, state.links, id);
      state := state.(routers := t, nextRouterId := id + 1);
    }

    /**
      deleteRouter: nothing when `x` is not a router; otherwise `x` and
      every link touching it are gone, and `x` leaves every other router's
      neighbour list, distance vector and next-hop table.
    */
    method DeleteRouter(x: nat)
      requires Valid() && !state.simulationRunning
      modifies this
      ensures Valid()
      ensures x !in old(state.routers) ==> state == old(state)
      ensures x in old(state.routers) ==>
                state == old(state).(routers := DeleteRouterSpec(old(state.routers), x),
                                     links := DeleteLinks(old(state.links), x))
    {
      if x !in state.routers {
        return;
      }
      var t, l := DeleteFromTables(state.routers, state.links, x);
      DeleteRouterKeepsInvariant(state.routers, state.links, state.nextRouterId, x);
      state := state.(routers := t, links := l);
    }

    /**
      addLink: refuses a self-link and a second link between the same pair;
      otherwise stores the link once, under `(a, b)`, makes the endpoints
      neighbours of each other and seeds both direct entries with `cost`.
      The link popup's confirm handler calls it without looking at
      `simulationRunning`, so it may also land between two steps of a run.
    */
    method AddLink(a: nat, b: nat, cost: int) returns (outcome: LinkOutcome)
      requires Valid()
      requires a in state.routers && b in state.routers && cost >= 1
      modifies this
      ensures Valid()
      ensures outcome == AddLinkOutcome(old(state.links), a, b)
      ensures outcome != Added ==> state == old(state)
      ensures outcome == Added ==>
                state == old(state).(routers := AddLinkSpec(old(state.routers), a, b, cost),
                                     links := old(state.links)[(a, b) := cost])
    {
      if a == b {
        return SelfLink;
      }
      if (a, b) in state.links || (b, a) in state.links {
        return DuplicateLink;
      }
      var t := LinkRouters(state.routers, a, b, cost);
      AddLinkKeepsInvariant(state.routers, state.links, state.nextRouterId, a, b, cost);
      state := state.(routers := t, links := state.links[(a, b) := cost]);
      outcome := Added;
    }

    /**
      runDvrStep on the globals; the result says whether the run goes on.
    */
    method RunDvrStep() returns (continues: bool)
      requires Valid() && state.simulationRunning
      modifies this
      ensures Valid() && state == StepNet(old(state))
      ensures continues == state.simulationRunning
    {
      StepNetValid(state);
      state := DvrStep(state);
      continues := state.simulationRunning;
    }

    /** runDvr on the globals. */
    method RunDvr()
      requires Valid()
      modifies this
      ensures Valid() && state == RunDvrSpec(old(state))
    {
      if !state.simulationRunning {
        RunDvrValid(state);
      }
      state := DvrRun(state);
    }

    /**
      findPath: the guards, then the walk along `nextHop[current][to]` until
      `to` is reached, a hop is missing, or the path grows longer than there
      are routers.
    */
    method FindPath(from: nat, to: nat) returns (o: PathOutcome)
      requires Valid() && from in state.routers && to in state.routers
      ensures to in state.routers[from].distanceVector
      ensures o == FindPathSpec(state.routers, state.isConverged, from, to)
    {
      var routers := state.routers;
      assert RouterShaped(routers, from);
      if !state.isConverged {
        return Failed(NotConverged);
      }
      if from == to {
        return Failed(SameRouter);
      }
      var currentHop: nat := from;
      var path: seq<nat> := [currentHop];
      var nextHop := HopToward(routers, currentHop, to);
      if nextHop.None? || routers[currentHop].distanceVector[to] == Inf {
        return Failed(Unreachable);
      }
      while currentHop != to
        invariant 0 < |path| <= |routers| && currentHop == path[|path| - 1]
        invariant Walk(routers, to, path, |routers|) == Walk(routers, to, [from], |routers|)
        decreases |routers| - |path|
      {
        if currentHop !in routers {
          return Failed(MissingRouter);
        }
        nextHop := HopToward(routers, currentHop, to);
        if nextHop.None? {
          return Failed(IncompletePath);
        }
        path := path + [nextHop.value];
        currentHop := nextHop.value;
        if |path| > |routers| {
          return Failed(LoopDetected);
        }
      }
      return Found(path, routers[from].distanceVector[to].value);
    }
  }
}
