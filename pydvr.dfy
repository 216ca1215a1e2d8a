/**
  dvr.py: the same distance-vector engine driven frame by frame by an
  animation. Nodes are seeded with their direct link costs when they are
  built, read a neighbour's 0 entry as 0 (`neighbor_vector.get(dest, inf)`),
  and the animation declares convergence only after two consecutive rounds
  in which no node changed.

  Node names are `nat`s here; `node_order` is the insertion order of the
  topology's keys, passed in as a sequence.
*/
module PyDvr {
  import opened Wrappers
  import opened Costs
  import opened Links
  import opened Relaxation
  import opened Topology
  import opened Engine
  import opened Routers
  import Simulation

  /** `max_iterations`. */
  const MaxIterations: nat := 20

  /** `nodes_dict`: each node's neighbour list, in the order its links were entered. */
  type Topo = map<nat, seq<nat>>

  /**
    What get_topology_input can hand on: every neighbour is a node, since
    `nodes_dict[u].append(v)` fails on an unknown name.
  */
  predicate WellFormed(topo: Topo)
  {
    forall u | u in topo :: forall v | v in topo[u] :: v in topo
  }

  // ----- Node.__init__ -----

  /** The neighbours of `id` with a stored link, whose entries the constructor seeds. */
  function Seeded(id: nat, ns: seq<nat>, links: LinkTable): set<nat>
  {
    set n | n in ns && Linked(links, id, n)
  }

  /**
    The distance vector a node starts with: infinity toward every node, 0
    toward itself, and the link cost toward each neighbour with a link (a
    self-link, which get_topology_input accepts, overrides the 0).
  */
  function InitialVector(id: nat, nodes: set<nat>, ns: seq<nat>, links: LinkTable): Vector
  {
    map d | d in nodes + {id} + Seeded(id, ns, links) ::
      if d in Seeded(id, ns, links) then LinkCost(links, id, d)
      else if d == id then Fin(0)
      else Inf
  }

  /** The next hops a node starts with: each linked neighbour is its own next hop, every other node none. */
  function InitialHops(id: nat, nodes: set<nat>, ns: seq<nat>, links: LinkTable): Hops
  {
    map d | d in nodes + Seeded(id, ns, links) :: if d in Seeded(id, ns, links) then Some(d) else None
  }

  function InitialNode(id: nat, nodes: set<nat>, ns: seq<nat>, links: LinkTable): RouterState
  {
    RouterState(ns, InitialVector(id, nodes, ns, links), InitialHops(id, nodes, ns, links), false)
  }

  /**
    What a node starts with, entry by entry: its own entry is 0 unless it is
    linked to itself; a linked neighbour costs its link and is its own next
    hop; every other node is unreachable with no next hop.
  */
  lemma InitialNodeEntries(id: nat, nodes: set<nat>, ns: seq<nat>, links: LinkTable, d: nat)
    requires id in nodes && d in nodes
    ensures d in InitialNode(id, nodes, ns, links).distanceVector && d in InitialNode(id, nodes, ns, links).nextHop
    ensures d in ns && Linked(links, id, d) ==>
              InitialNode(id, nodes, ns, links).distanceVector[d] == LinkCost(links, id, d) &&
              LinkCost(links, id, d).Fin? &&
              InitialNode(id, nodes, ns, links).nextHop[d] == Some(d)
    ensures !(d in ns && Linked(links, id, d)) ==>
              InitialNode(id, nodes, ns, links).distanceVector[d] == (if d == id then Fin(0) else Inf) &&
              InitialNode(id, nodes, ns, links).nextHop[d] == None
  {
  }

  /** The seeded prefix grows by one neighbour. */
  lemma SeededStep(id: nat, ns: seq<nat>, i: nat, links: LinkTable)
    requires i < |ns|
    ensures Seeded(id, ns[..i + 1], links)
            == Seeded(id, ns[..i], links) + (if Linked(links, id, ns[i]) then {ns[i]} else {})
  {
    assert ns[..i + 1] == ns[..i] + [ns[i]];
  }

  /** Seeding one more neighbour is one more map update (or none, without a link). */
  lemma InitialStep(id: nat, nodes: set<nat>, ns: seq<nat>, i: nat, links: LinkTable)
    requires i < |ns|
    ensures InitialVector(id, nodes, ns[..i + 1], links)
            == if Linked(links, id, ns[i]) then InitialVector(id, nodes, ns[..i], links)[ns[i] := LinkCost(links, id, ns[i])]
               else InitialVector(id, nodes, ns[..i], links)
    ensures InitialHops(id, nodes, ns[..i + 1], links)
            == if Linked(links, id, ns[i]) then InitialHops(id, nodes, ns[..i], links)[ns[i] := Some(ns[i])]
               else InitialHops(id, nodes, ns[..i], links)
  {
    SeededStep(id, ns, i, links);
  }

  /** Before any neighbour: infinity and no next hop everywhere, 0 toward itself. */
  lemma InitialStart(id: nat, nodes: set<nat>, ns: seq<nat>, links: LinkTable)
    ensures InitialVector(id, nodes, ns[..0], links) == (map node | node in nodes :: Inf)[id := Fin(0)]
    ensures InitialHops(id, nodes, ns[..0], links) == map node | node in nodes :: None
  {
    assert Seeded(id, ns[..0], links) == {};
  }

  /**
    The body of the Node constructor on its two tables: every node at
    infinity with no next hop, itself at 0, then each neighbour with a
    finite link cost seeded with it.
  */
  method SeedNeighbors(id: nat, neighbors: seq<nat>, nodes: set<nat>, links: LinkTable)
    returns (dv: Vector, nh: Hops)
    ensures dv == InitialVector(id, nodes, neighbors, links)
    ensures nh == InitialHops(id, nodes, neighbors, links)
  {
    dv := map node | node in nodes :: Inf;
    dv := dv[id := Fin(0)];
    nh := map node | node in nodes :: None;
    InitialStart(id, nodes, neighbors, links);
    var i := 0;
    while i < |neighbors|
      invariant i <= |neighbors|
      invariant dv == InitialVector(id, nodes, neighbors[..i], links)
      invariant nh == InitialHops(id, nodes, neighbors[..i], links)
    {
      var neighbor := neighbors[i];
      InitialStep(id, nodes, neighbors, i, links);
      var cost := LinkCost(links, id, neighbor);
      if cost != Inf {
        dv := dv[neighbor := cost];
        nh := nh[neighbor := Some(neighbor)];
      }
      i := i + 1;
    }
    assert neighbors[..i] == neighbors;
  }

  class Node {
    const id: nat
    var neighbors: seq<nat>
    var distanceVector: Vector
    var nextHop: Hops
    var updatedInIteration: bool

    function State(): RouterState
      reads this
    {
      RouterState(neighbors, distanceVector, nextHop, updatedInIteration)
    }

    /**
      `Node(node_id, neighbors, link_costs)`: infinity and no next hop toward
      every node of the topology, 0 toward itself, then each neighbour whose
      link cost is finite is seeded with it.
    */
    constructor (id: nat, neighbors: seq<nat>, nodes: set<nat>, links: LinkTable)
      ensures this.id == id
      ensures State() == InitialNode(id, nodes, neighbors, links)
    {
      this.id := id;
      this.neighbors := neighbors;
      var dv, nh := SeedNeighbors(id, neighbors, nodes, links);
      distanceVector := dv;
      nextHop := nh;
      updatedInIteration := false;
    }

    /** A node object holding a state the animation has stored. */
    constructor Load(id: nat, s: RouterState)
      ensures this.id == id && State() == s
    {
      this.id := id;
      neighbors := s.neighbors;
      distanceVector := s.distanceVector;
      nextHop := s.nextHop;
      updatedInIteration := s.updatedInIteration;
    }

    /**
      update_distance_vector: the vector and next hops become the relaxation
      against the received vectors, reading entries as they are (a missing
      one as infinity, a 0 as 0). It returns, and records in the flag,
      whether the vector changed.
    */
    method UpdateDistanceVector(received: Received, links: LinkTable) returns (updated: bool)
      requires forall d | d in distanceVector && d != id :: d in nextHop
      modifies this
      ensures neighbors == old(neighbors)
      ensures (distanceVector, nextHop)
              == RelaxVector(id, old(distanceVector), old(nextHop), neighbors, received, links, ZeroAsZero)
      ensures updated <==> distanceVector != old(distanceVector)
      ensures updatedInIteration == (old(updatedInIteration) || updated)
    {
      var dv, nh;
      dv, nh, updated := RelaxAll(id, distanceVector, nextHop, neighbors, received, links, ZeroAsZero);
      distanceVector, nextHop := dv, nh;
      if updated {
        updatedInIteration := true;
      }
    }
  }

  /** `nodes = {nid: Node(nid, neighbors, link_costs) ...}`, as the states the objects hold. */
  function InitialNodes(topo: Topo, links: LinkTable): RouterTable
  {
    map id | id in topo :: InitialNode(id, topo.Keys, topo[id], links)
  }

  method CreateNodes(topo: Topo, links: LinkTable) returns (t: RouterTable)
    ensures t == InitialNodes(topo, links)
  {
    t := map[];
    var rest := topo.Keys;
    while rest != {}
      invariant rest <= topo.Keys
      invariant t == map id | id in topo.Keys - rest :: InitialNode(id, topo.Keys, topo[id], links)
      decreases rest
    {
      var nid :| nid in rest;
      var node := new Node(nid, topo[nid], topo.Keys, links);
      t := t[nid := node.State()];
      rest := rest - {nid};
    }
  }

  // ----- update(frame) -----

  /** The module globals `update` reads and writes, with the nodes' states. */
  datatype Anim = Anim(nodes: RouterTable, iteration: nat, converged: bool, stableIterations: nat, totalUpdated: bool)

  /** The globals before the first frame. */
  function InitialAnim(topo: Topo, links: LinkTable): Anim
  {
    Anim(InitialNodes(topo, links), 0, false, 0, false)
  }

  /**
    Every node's neighbours are nodes, and every destination other than the
    node itself has a next-hop entry.
  */
  ghost predicate Shaped(t: RouterTable)
  {
    forall i | i in t ::
      && (forall n | n in t[i].neighbors :: n in t)
      && (forall d | d in t[i].distanceVector && d != i :: d in t[i].nextHop)
  }

  /** `node_order` lists exactly the nodes. */
  ghost predicate Lists(order: seq<nat>, t: RouterTable)
  {
    |order| > 0 && forall i :: i in order <==> i in t
  }

  /**
    The start of a round (`node_index == 0`): every flag is cleared and,
    after frame 0, the round just finished is scored. A round without an
    update counts toward `stable_iterations`, and the second consecutive one
    converges the animation; an update resets the count. Unless it
    converged, `iteration` counts the new round and `total_updated` starts
    over.
  */
  function StartRound(a: Anim, frame: nat): Anim
  {
    var stable := if 0 < frame then (if a.totalUpdated then 0 else a.stableIterations + 1) else a.stableIterations;
    if 0 < frame && !a.totalUpdated && stable >= 2 then
      Anim(ClearFlags(a.nodes), a.iteration, true, stable, a.totalUpdated)
    else
      Anim(ClearFlags(a.nodes), a.iteration + 1, false, stable, false)
  }

  /**
    `current_node.update_distance_vector(received_vectors)` and its effect on
    `total_updated`.
  */
  function ProcessNode(a: Anim, links: LinkTable, cur: nat): Anim
    requires cur in a.nodes
  {
    var after := ProcessRouter(a.nodes, links, cur, ZeroAsZero);
    a.(nodes := after, totalUpdated := a.totalUpdated || after[cur].distanceVector != a.nodes[cur].distanceVector)
  }

  /**
    update(frame): once converged, nothing; otherwise the node at
    `frame % len(node_order)` is processed, after the round bookkeeping when
    that index is 0 (which may converge the animation instead).
  */
  function UpdateFrame(a: Anim, order: seq<nat>, links: LinkTable, frame: nat): (r: Anim)
    requires |order| > 0 && forall i | i in order :: i in a.nodes
    ensures r.nodes.Keys == a.nodes.Keys
  {
    if a.converged then a
    else
      var k := frame % |order|;
      var s := if k == 0 then StartRound(a, frame) else a;
      if s.converged then s else ProcessNode(s, links, order[k])
  }

  /**
    Only the node at `frame % len(node_order)` can change its tables; every
    other node keeps them, and keeps its flag unless the frame starts a
    round, which clears it. Once converged, nothing changes at all.
  */
  lemma UpdateFrameOthers(a: Anim, order: seq<nat>, links: LinkTable, frame: nat)
    requires |order| > 0 && forall i | i in order :: i in a.nodes
    ensures a.converged ==> UpdateFrame(a, order, links, frame) == a
    ensures forall i | i in a.nodes && i != order[frame % |order|] ::
              && UpdateFrame(a, order, links, frame).nodes[i].distanceVector == a.nodes[i].distanceVector
              && UpdateFrame(a, order, links, frame).nodes[i].nextHop == a.nodes[i].nextHop
              && UpdateFrame(a, order, links, frame).nodes[i].neighbors == a.nodes[i].neighbors
              && UpdateFrame(a, order, links, frame).nodes[i].updatedInIteration
                 == (a.nodes[i].updatedInIteration && (a.converged || frame % |order| != 0))
  {
    if !a.converged && frame % |order| == 0 {
      var s := StartRound(a, frame);
      forall i | i in a.nodes
        ensures s.nodes[i] == a.nodes[i].(updatedInIteration := false)
      {
        assert s.nodes[i].(updatedInIteration := a.nodes[i].updatedInIteration) == a.nodes[i];
      }
    }
  }

  /**
    The round bookkeeping: the counters change only when a round starts;
    convergence happens only then, after frame 0, when the round just ended
    had no update and the one before it had none either.
  */
  lemma UpdateFrameCounters(a: Anim, order: seq<nat>, links: LinkTable, frame: nat)
    requires |order| > 0 && forall i | i in order :: i in a.nodes
    requires !a.converged
    ensures var r := UpdateFrame(a, order, links, frame);
      && (frame % |order| != 0 ==>
            !r.converged && r.iteration == a.iteration && r.stableIterations == a.stableIterations)
      && (frame % |order| == 0 && 0 < frame ==>
            r.stableIterations == (if a.totalUpdated then 0 else a.stableIterations + 1))
      && (r.converged <==> frame % |order| == 0 && 0 < frame && !a.totalUpdated && a.stableIterations >= 1)
      && (frame % |order| == 0 && !r.converged ==> r.iteration == a.iteration + 1)
      && (r.converged ==> r.iteration == a.iteration && NoneUpdated(r.nodes))
  {
  }

  /** The body of update(frame), on the globals as a value. */
  method UpdateStep(a: Anim, order: seq<nat>, links: LinkTable, frame: nat) returns (r: Anim)
    requires |order| > 0 && (forall i | i in order :: i in a.nodes) && Shaped(a.nodes)
    ensures r == UpdateFrame(a, order, links, frame)
  {
    if a.converged {
      return a;
    }
    var nodeIndex := frame % |order|;
    var currentNodeId := order[nodeIndex];
    r := a;
    if nodeIndex == 0 {
      r := RoundStart(a, frame);
      if r.converged {
        return r;
      }
    }
    r := UpdateCurrent(r, links, currentNodeId);
  }

  /**
    The round bookkeeping of update(frame): clear every flag, score the
    round just ended (after frame 0), and either converge or count the new
    round.
  */
  method RoundStart(a: Anim, frame: nat) returns (r: Anim)
    ensures r == StartRound(a, frame)
  {
    var nodes := Simulation.ClearAllFlags(a.nodes);
    var iteration := a.iteration;
    var stableIterations := a.stableIterations;
    if frame > 0 {
      if !a.totalUpdated {
        stableIterations := stableIterations + 1;
        if stableIterations >= 2 {
          return Anim(nodes, iteration, true, stableIterations, a.totalUpdated);
        }
      } else {
        stableIterations := 0;
      }
    }
    iteration := iteration + 1;
    r := Anim(nodes, iteration, false, stableIterations, false);
  }

  /** The current node updates from copies of its neighbours' vectors, and `total_updated` records any change. */
  method UpdateCurrent(a: Anim, links: LinkTable, cur: nat) returns (r: Anim)
    requires cur in a.nodes && Shaped(a.nodes)
    ensures r == ProcessNode(a, links, cur)
  {
    var received := Simulation.GatherVectors(a.nodes, cur);
    var node := new Node.Load(cur, a.nodes[cur]);
    var updated := node.UpdateDistanceVector(received, links);
    r := a.(nodes := a.nodes[cur := node.State()], totalUpdated := a.totalUpdated || updated);
  }

  // ----- the frames FuncAnimation drives -----

  /** Frames `frame` up to `end` (exclusive), each an update(frame) call. */
  function RunFrames(a: Anim, order: seq<nat>, links: LinkTable, frame: nat, end: nat): (r: Anim)
    requires |order| > 0 && forall i | i in order :: i in a.nodes
    ensures r.nodes.Keys == a.nodes.Keys
    decreases end - frame
  {
    if frame >= end then a
    else RunFrames(UpdateFrame(a, order, links, frame), order, links, frame + 1, end)
  }

  /** The frame at which round `r` processes its `k`-th node, when rounds are `n` frames long: `r * n + k`. */
  function Pos(n: nat, r: nat, k: nat): nat
  {
    if r == 0 then k else n + Pos(n, r - 1, k)
  }

  lemma {:induction false} PosMul(n: nat, r: nat, k: nat)
    ensures Pos(n, r, k) == r * n + k
  {
    if r > 0 {
      PosMul(n, r - 1, k);
      assert r * n == (r - 1) * n + n;
    }
  }

  /** Frame `Pos(n, r, k)` is the `k`-th of round `r`. */
  lemma FrameIndex(r: nat, k: nat, n: nat)
    requires k < n
    ensures Pos(n, r, k) % n == k && Pos(n, r, k) / n == r
  {
    PosMul(n, r, k);
    var x := r * n + k;
    var q, m := x / n, x % n;
    assert x == q * n + m && 0 <= m < n;
    if q < r {
      MulStep(q, r, n);
    } else if q > r {
      MulStep(r, q, n);
    }
  }

  /** The position after `(r, k)` is the next frame. */
  lemma PosNext(n: nat, r: nat, k: nat)
    requires k < n
    ensures Pos(n, Next(n, r, k).0, Next(n, r, k).1) == Pos(n, r, k) + 1
  {
    PosMul(n, r, k);
    PosMul(n, Next(n, r, k).0, Next(n, r, k).1);
    if k + 1 == n {
      assert (r + 1) * n == r * n + n;
    }
  }

  /** Two positions of a round's node are the same frame only when they are the same position. */
  lemma PosEnd(n: nat, r: nat, k: nat, rounds: nat)
    requires k < n && Pos(n, r, k) == Pos(n, rounds, 0)
    ensures r == rounds && k == 0
  {
    FrameIndex(r, k, n);
    FrameIndex(rounds, 0, n);
  }

  /** `a < b` means `b * n` exceeds `a * n` by at least `n`. */
  lemma {:induction false} MulStep(a: int, b: int, n: nat)
    requires a < b
    ensures a * n + n <= b * n
    decreases b - a
  {
    assert b * n == (b - 1) * n + n;
    if a < b - 1 {
      MulStep(a, b - 1, n);
    }
  }

  /** The routers of `order` processed so far in the round at `(r, k)`, when every update was skipped. */
  function Done(n: nat, r: nat, k: nat): nat
  {
    if k > 0 then k else if r > 0 then n else 0
  }

  /**
    What holds before frame `r * len(order) + k`, when `base` rounds were
    counted before frame 0 (1 after the initial draw, which ran update(0)
    once already):
    the flags tell whether the round so far updated anything;
    a converged animation is at a fixed point, after two stable rounds;
    otherwise `iteration` counts the rounds started, `stable_iterations`
    is at most 1, and, while nothing was updated, every node the round has
    processed is stable.
  */
  ghost predicate AnimInv(a: Anim, order: seq<nat>, links: LinkTable, base: nat, r: nat, k: nat)
  {
    && Lists(order, a.nodes) && Shaped(a.nodes) && k < |order|
    && (a.totalUpdated <==> !NoneUpdated(a.nodes))
    && (a.converged ==>
          FixedPoint(a.nodes, links, ZeroAsZero) && a.stableIterations == 2 && 2 + base <= a.iteration <= base + r)
    && (!a.converged ==>
          && a.iteration == base + r + (if k > 0 then 1 else 0)
          && a.stableIterations <= 1
          && (a.stableIterations == 0 || a.stableIterations + base < a.iteration)
          && (!a.totalUpdated ==> StablePrefix(a.nodes, order, links, Done(|order|, r, k))))
  }

  /** The first `m` nodes of `order` are stable. */
  ghost predicate StablePrefix(t: RouterTable, order: seq<nat>, links: LinkTable, m: nat)
  {
    m <= |order| && forall j | 0 <= j < m :: order[j] in t && Stable(t, links, order[j], ZeroAsZero)
  }

  /** One more stable node extends the stable prefix. */
  lemma StablePrefixNext(t: RouterTable, order: seq<nat>, links: LinkTable, k: nat)
    requires k < |order| && order[k] in t
    requires StablePrefix(t, order, links, k) && Stable(t, links, order[k], ZeroAsZero)
    ensures StablePrefix(t, order, links, k + 1)
  {
  }

  /** Processing one node keeps the tables shaped. */
  lemma ProcessNodeShaped(a: Anim, links: LinkTable, cur: nat)
    requires cur in a.nodes && Shaped(a.nodes)
    ensures Shaped(ProcessNode(a, links, cur).nodes)
  {
    var t := ProcessNode(a, links, cur).nodes;
    forall i | i in t
      ensures (forall n | n in t[i].neighbors :: n in t)
      ensures (forall d | d in t[i].distanceVector && d != i :: d in t[i].nextHop)
    {
    }
  }

  /**
    Processing one node keeps `total_updated` in step with the flags; a
    processing that updates nothing leaves the table as it was and shows
    the node stable.
  */
  lemma ProcessNodeQuiet(a: Anim, links: LinkTable, cur: nat)
    requires cur in a.nodes && (a.totalUpdated <==> !NoneUpdated(a.nodes))
    ensures var p := ProcessNode(a, links, cur);
      && (p.totalUpdated <==> !NoneUpdated(p.nodes))
      && (!p.totalUpdated ==> p.nodes == a.nodes && Stable(a.nodes, links, cur, ZeroAsZero))
  {
    var p := ProcessNode(a, links, cur);
    if !p.totalUpdated {
      assert !a.nodes[cur].updatedInIteration;
      ProcessUnchanged(a.nodes, links, cur, ZeroAsZero);
    } else if a.totalUpdated {
      var i :| i in a.nodes && a.nodes[i].updatedInIteration;
      assert p.nodes[i].updatedInIteration;
    } else {
      assert p.nodes[cur].updatedInIteration;
    }
  }

  /** A round start keeps the tables shaped and leaves no flag raised. */
  lemma StartRoundShaped(a: Anim, frame: nat)
    requires Shaped(a.nodes)
    ensures Shaped(StartRound(a, frame).nodes) && NoneUpdated(StartRound(a, frame).nodes)
  {
    var t := StartRound(a, frame).nodes;
    forall i | i in t
      ensures t[i].neighbors == a.nodes[i].neighbors && t[i].distanceVector == a.nodes[i].distanceVector
      ensures t[i].nextHop == a.nodes[i].nextHop
    {
      assert t[i].(updatedInIteration := a.nodes[i].updatedInIteration) == a.nodes[i];
    }
  }

  /** Every node of `order` stable: the table is a fixed point. */
  lemma AllStable(t: RouterTable, order: seq<nat>, links: LinkTable)
    requires Lists(order, t)
    requires StablePrefix(t, order, links, |order|)
    ensures FixedPoint(t, links, ZeroAsZero)
  {
    forall i | i in t ensures Stable(t, links, i, ZeroAsZero) {
      var j :| 0 <= j < |order| && order[j] == i;
    }
  }

  /** The position after `(r, k)`. */
  function Next(n: nat, r: nat, k: nat): (nat, nat)
  {
    if k + 1 < n then (r, k + 1) else (r + 1, 0)
  }

  /**
    `p` is `a` after processing node `cur`: the counters other than
    `total_updated` are kept, the tables stay shaped, the flags still tell
    whether the round updated anything, and a processing that updated
    nothing left the table as it was, with `cur` stable.
  */
  ghost predicate Processed(a: Anim, p: Anim, order: seq<nat>, links: LinkTable, cur: nat)
  {
    && cur in a.nodes
    && p.iteration == a.iteration && p.converged == a.converged && p.stableIterations == a.stableIterations
    && Lists(order, p.nodes) && Shaped(p.nodes)
    && (p.totalUpdated <==> !NoneUpdated(p.nodes))
    && (!p.totalUpdated ==> p.nodes == a.nodes && Stable(a.nodes, links, cur, ZeroAsZero))
  }

  lemma ProcessNodeProcessed(a: Anim, p: Anim, order: seq<nat>, links: LinkTable, cur: nat)
    requires cur in a.nodes && Lists(order, a.nodes) && Shaped(a.nodes)
    requires a.totalUpdated <==> !NoneUpdated(a.nodes)
    requires p == ProcessNode(a, links, cur)
    ensures Processed(a, p, order, links, cur)
  {
    ProcessNodeShaped(a, links, cur);
    ProcessNodeQuiet(a, links, cur);
  }

  /** A frame in the middle of a round keeps the invariant. */
  lemma AnimStepMid(a: Anim, p: Anim, order: seq<nat>, links: LinkTable, base: nat, r: nat, k: nat)
    requires AnimInv(a, order, links, base, r, k) && !a.converged && 0 < k
    requires Processed(a, p, order, links, order[k])
    ensures AnimInv(p, order, links, base, Next(|order|, r, k).0, Next(|order|, r, k).1)
  {
    if !p.totalUpdated {
      StablePrefixNext(a.nodes, order, links, k);
    }
  }

  /**
    `s` is `a` after a round start at frame `r * len(order)` that did not
    converge.
  */
  ghost predicate Restarted(a: Anim, s: Anim, order: seq<nat>, r: nat)
  {
    && !s.converged && !s.totalUpdated && s.iteration == a.iteration + 1
    && s.stableIterations == (if 0 < r then (if a.totalUpdated then 0 else a.stableIterations + 1) else a.stableIterations)
    && Lists(order, s.nodes) && Shaped(s.nodes) && NoneUpdated(s.nodes)
  }

  lemma StartRoundRestarted(a: Anim, order: seq<nat>, r: nat, frame: nat)
    requires Lists(order, a.nodes) && Shaped(a.nodes) && 0 < |order| && frame == Pos(|order|, r, 0)
    requires !StartRound(a, frame).converged
    ensures Restarted(a, StartRound(a, frame), order, r)
  {
    StartRoundShaped(a, frame);
    assert 0 < frame <==> 0 < r;
  }

  /** A frame that starts a round and does not converge keeps the invariant. */
  lemma AnimStepStart(a: Anim, s: Anim, p: Anim, order: seq<nat>, links: LinkTable, base: nat, r: nat)
    requires AnimInv(a, order, links, base, r, 0) && !a.converged
    requires Restarted(a, s, order, r) && s.stableIterations < 2
    requires Processed(s, p, order, links, order[0])
    ensures AnimInv(p, order, links, base, Next(|order|, r, 0).0, Next(|order|, r, 0).1)
  {
    if !p.totalUpdated {
      StablePrefixNext(s.nodes, order, links, 0);
    }
  }

  /** A frame that converges the animation establishes the fixed point. */
  lemma AnimStepConverge(a: Anim, b: Anim, order: seq<nat>, links: LinkTable, base: nat, r: nat, frame: nat)
    requires AnimInv(a, order, links, base, r, 0) && !a.converged
    requires frame == Pos(|order|, r, 0) && b == StartRound(a, frame) && b.converged
    ensures AnimInv(b, order, links, base, Next(|order|, r, 0).0, Next(|order|, r, 0).1)
  {
    assert 0 < r;
    AllStable(a.nodes, order, links);
    ClearFlagsStable(a.nodes, links, ZeroAsZero);
    StartRoundShaped(a, frame);
  }

  /** Every frame keeps the invariant, moving to the next position. */
  lemma AnimStep(a: Anim, b: Anim, order: seq<nat>, links: LinkTable, base: nat, r: nat, k: nat)
    requires AnimInv(a, order, links, base, r, k)
    requires b == UpdateFrame(a, order, links, Pos(|order|, r, k))
    ensures AnimInv(b, order, links, base, Next(|order|, r, k).0, Next(|order|, r, k).1)
  {
    var frame := Pos(|order|, r, k);
    FrameIndex(r, k, |order|);
    var s := if k == 0 then StartRound(a, frame) else a;
    if a.converged {
    } else if s.converged {
      AnimStepConverge(a, b, order, links, base, r, frame);
    } else {
      AnimStepProcess(a, s, b, order, links, base, r, k, frame);
    }
  }

  /** A frame that processes a node keeps the invariant. */
  lemma AnimStepProcess(a: Anim, s: Anim, b: Anim, order: seq<nat>, links: LinkTable, base: nat, r: nat, k: nat, frame: nat)
    requires AnimInv(a, order, links, base, r, k) && !a.converged && frame == Pos(|order|, r, k)
    requires s == (if k == 0 then StartRound(a, frame) else a) && !s.converged
    requires b == ProcessNode(s, links, order[k])
    ensures AnimInv(b, order, links, base, Next(|order|, r, k).0, Next(|order|, r, k).1)
  {
    if k > 0 {
      ProcessNodeProcessed(s, b, order, links, order[k]);
      AnimStepMid(a, b, order, links, base, r, k);
    } else {
      StartRoundRestarted(a, order, r, frame);
      ProcessNodeProcessed(s, b, order, links, order[k]);
      AnimStepStart(a, s, b, order, links, base, r);
    }
  }

  /** The invariant holds before frame 0. */
  lemma AnimInvInitial(topo: Topo, links: LinkTable, order: seq<nat>)
    requires WellFormed(topo) && Lists(order, InitialNodes(topo, links))
    ensures AnimInv(InitialAnim(topo, links), order, links, 0, 0, 0)
  {
    InitialShaped(topo, links);
    InitialQuiet(topo, links);
  }

  /**
    The initial draw: FuncAnimation, given no `init_func`, draws its first
    frame by calling update(0) before its timer runs frames 0 onward. That
    call starts a round and processes the first node; the timer's own
    update(0) then starts round 0 over, one `iteration` higher.
  */
  lemma InitialDraw(a: Anim, b: Anim, order: seq<nat>, links: LinkTable)
    requires AnimInv(a, order, links, 0, 0, 0)
    requires b == UpdateFrame(a, order, links, 0)
    ensures AnimInv(b, order, links, 1, 0, 0)
    ensures b.iteration == 1 && !b.converged
  {
    var s := StartRound(a, 0);
    StartRoundRestarted(a, order, 0, 0);
    ProcessNodeProcessed(s, b, order, links, order[0]);
  }

  /** The nodes as built are shaped. */
  lemma InitialShaped(topo: Topo, links: LinkTable)
    requires WellFormed(topo)
    ensures Shaped(InitialNodes(topo, links))
  {
    var t := InitialNodes(topo, links);
    forall i | i in t
      ensures (forall n | n in t[i].neighbors :: n in t)
      ensures (forall d | d in t[i].distanceVector && d != i :: d in t[i].nextHop)
    {
    }
  }

  /** No node as built has its flag set. */
  lemma InitialQuiet(topo: Topo, links: LinkTable)
    ensures NoneUpdated(InitialNodes(topo, links))
  {
  }

  /** From any position up to the last frame, the invariant reaches the end of frame `end`. */
  lemma {:induction false} RunFramesInv(a: Anim, e: Anim, order: seq<nat>, links: LinkTable, base: nat,
                                       r: nat, k: nat, rounds: nat, frame: nat, end: nat)
    requires AnimInv(a, order, links, base, r, k)
    requires frame == Pos(|order|, r, k) && end == Pos(|order|, rounds, 0) && frame <= end
    requires e == RunFrames(a, order, links, frame, end)
    ensures AnimInv(e, order, links, base, rounds, 0)
    decreases end - frame
  {
    if frame >= end {
      PosEnd(|order|, r, k, rounds);
      assert e == a;
    } else {
      var b := UpdateFrame(a, order, links, frame);
      var next := Next(|order|, r, k);
      FrameStep(a, b, order, links, base, r, k, frame, end);
      RunFramesInv(b, e, order, links, base, next.0, next.1, rounds, frame + 1, end);
    }
  }

  /** One frame of RunFramesInv: the invariant moves on by one position, and so does the run. */
  lemma FrameStep(a: Anim, b: Anim, order: seq<nat>, links: LinkTable, base: nat, r: nat, k: nat, frame: nat, end: nat)
    requires AnimInv(a, order, links, base, r, k) && frame == Pos(|order|, r, k) && frame < end
    requires b == UpdateFrame(a, order, links, frame)
    ensures AnimInv(b, order, links, base, Next(|order|, r, k).0, Next(|order|, r, k).1)
    ensures frame + 1 == Pos(|order|, Next(|order|, r, k).0, Next(|order|, r, k).1)
    ensures RunFrames(a, order, links, frame, end) == RunFrames(b, order, links, frame + 1, end)
  {
    AnimStep(a, b, order, links, base, r, k);
    PosNext(|order|, r, k);
    RunFramesStep(a, b, order, links, frame, end);
  }

  /** One frame of a run. */
  lemma RunFramesStep(a: Anim, b: Anim, order: seq<nat>, links: LinkTable, frame: nat, end: nat)
    requires |order| > 0 && (forall i | i in order :: i in a.nodes) && frame < end
    requires b == UpdateFrame(a, order, links, frame)
    ensures RunFrames(a, order, links, frame, end) == RunFrames(b, order, links, frame + 1, end)
  {
  }

  /**
    What FuncAnimation does with `update` over its `max_frames` frames.
    With no node there is no frame, so `update` is never called. Otherwise
    the initial draw calls update(0), and then the timer calls `update` on
    frames 0 to `max_frames - 1`, in order.
  */
  function Played(a: Anim, order: seq<nat>, links: LinkTable): Anim
    requires forall i | i in order :: i in a.nodes
  {
    if |order| == 0 then a
    else RunFrames(UpdateFrame(a, order, links, 0), order, links, 0, MaxIterations * |order|)
  }

  /**
    What the animation ends with. Without nodes nothing happens. Otherwise
    at most 21 rounds are started, the extra one coming from the initial
    draw; if the animation converged, after at least three, the tables are
    a fixed point of the relaxation (no neighbour offers any node a cheaper
    route); if it did not, `iteration` ends at 21.
  */
  lemma AnimationOutcome(topo: Topo, links: LinkTable, order: seq<nat>)
    requires WellFormed(topo) && forall i :: i in order <==> i in InitialNodes(topo, links)
    ensures var a := Played(InitialAnim(topo, links), order, links);
      && (|order| == 0 ==> a.nodes == map[] && a.iteration == 0 && !a.converged)
      && (|order| > 0 ==>
            && a.iteration <= MaxIterations + 1
            && (a.converged ==> FixedPoint(a.nodes, links, ZeroAsZero) && 3 <= a.iteration && a.stableIterations == 2)
            && (!a.converged ==> a.iteration == MaxIterations + 1))
  {
    if |order| > 0 {
      AnimInvInitial(topo, links, order);
      PosMul(|order|, MaxIterations, 0);
      var a0 := InitialAnim(topo, links);
      var a1 := UpdateFrame(a0, order, links, 0);
      InitialDraw(a0, a1, order, links);
      var a := RunFrames(a1, order, links, 0, MaxIterations * |order|);
      RunFramesInv(a1, a, order, links, 1, 0, 0, MaxIterations, 0, MaxIterations * |order|);
    } else {
      assert InitialNodes(topo, links).Keys == {};
    }
  }

  /**
    The script after the input is read: the nodes are built, then
    FuncAnimation plays its frames.
  */
  method Animate(topo: Topo, links: LinkTable, order: seq<nat>) returns (a: Anim)
    requires WellFormed(topo) && forall i :: i in order <==> i in InitialNodes(topo, links)
    ensures a == Played(InitialAnim(topo, links), order, links)
  {
    var animation := new Animation(topo, links);
    if |order| > 0 {
      AnimInvInitial(topo, links, order);
      RunAnimation(animation, order, links);
    }
    a := animation.state;
  }

  /**
    FuncAnimation with frames `range(max_frames)` and no `init_func`: the
    initial draw calls `update(0)`, then the timer calls `update(frame)` for
    frames 0 to `max_frames - 1`.
  */
  method RunAnimation(animation: Animation, order: seq<nat>, links: LinkTable)
    requires AnimInv(animation.state, order, links, 0, 0, 0)
    modifies animation
    ensures animation.state == Played(old(animation.state), order, links)
  {
    ghost var initial := animation.state;
    animation.Update(order, links, 0);
    InitialDraw(initial, animation.state, order, links);
    ghost var start := animation.state;
    ghost var cur := start;
    var maxFrames := MaxIterations * |order|;
    PosMul(|order|, MaxIterations, 0);
    var frame := 0;
    ghost var r: nat, k: nat := 0, 0;
    while frame < maxFrames
      invariant animation.state == cur
      invariant Running(cur, start, order, links, r, k, frame, maxFrames)
      decreases maxFrames - frame
    {
      animation.Update(order, links, frame);
      ghost var next := Next(|order|, r, k);
      RunningStep(cur, animation.state, start, order, links, r, k, frame, maxFrames);
      cur := animation.state;
      r, k := next.0, next.1;
      frame := frame + 1;
    }
  }

  /**
    The loop invariant of RunAnimation: `a` is the state before frame
    `frame`, at position `(r, k)`, after the initial draw.
  */
  ghost predicate Running(a: Anim, start: Anim, order: seq<nat>, links: LinkTable, r: nat, k: nat, frame: nat, end: nat)
  {
    && frame <= end && frame == Pos(|order|, r, k)
    && AnimInv(a, order, links, 1, r, k) && Lists(order, start.nodes)
    && RunFrames(a, order, links, frame, end) == RunFrames(start, order, links, 0, end)
  }

  lemma RunningStep(a: Anim, b: Anim, start: Anim, order: seq<nat>, links: LinkTable, r: nat, k: nat, frame: nat, end: nat)
    requires Running(a, start, order, links, r, k, frame, end) && frame < end
    requires b == UpdateFrame(a, order, links, frame)
    ensures Running(b, start, order, links, Next(|order|, r, k).0, Next(|order|, r, k).1, frame + 1, end)
  {
    AnimStep(a, b, order, links, 1, r, k);
    RunFramesStep(a, b, order, links, frame, end);
    PosNext(|order|, r, k);
  }

  /** The animation's globals; `update` is called by FuncAnimation once per frame. */
  class Animation {
    var state: Anim

    constructor (topo: Topo, links: LinkTable)
      ensures state == InitialAnim(topo, links)
    {
      var nodes := CreateNodes(topo, links);
      state := Anim(nodes, 0, false, 0, false);
    }

    method Update(order: seq<nat>, links: LinkTable, frame: nat)
      requires |order| > 0 && (forall i | i in order :: i in state.nodes) && Shaped(state.nodes)
      modifies this
      ensures state == UpdateFrame(old(state), order, links, frame)
    {
      var r := UpdateStep(state, order, links, frame);
      state := r;
    }
  }
}
