/**
  The distance-vector engine as values. One step processes one router: it
  receives a copy of each neighbour's current distance vector and relaxes its
  own (Gauss-Seidel order: a router processed later in the round already sees
  the vectors updated earlier in the same round). A round clears every
  `updatedInIteration` flag and then processes the routers in a fixed order:
  ascending id in script.js (runDvrStep), `node_order` in dvr.py (update).
*/
module Engine {
  import opened Wrappers
  import opened Costs
  import opened Links
  import opened Relaxation
  import opened Topology

  /**
    `Object.keys(routers)`: the ids of `ids` below `bound`, ascending (the
    order JavaScript enumerates integer-like keys in).
  */
  function SortedIds(ids: set<nat>, bound: nat): (s: seq<nat>)
    ensures forall i :: i in s <==> i in ids && i < bound
  {
    if bound == 0 then []
    else SortedIds(ids, bound - 1) + (if bound - 1 in ids then [bound - 1] else [])
  }

  /** The ids come out in strictly ascending order. */
  lemma {:induction false} SortedIdsAscending(ids: set<nat>, bound: nat)
    ensures forall i, j | 0 <= i < j < |SortedIds(ids, bound)| :: SortedIds(ids, bound)[i] < SortedIds(ids, bound)[j]
  {
    if bound > 0 {
      SortedIdsAscending(ids, bound - 1);
      var front := SortedIds(ids, bound - 1);
      var s := SortedIds(ids, bound);
      assert s == front + (if bound - 1 in ids then [bound - 1] else []);
      forall i, j | 0 <= i < j < |s| ensures s[i] < s[j] {
        if j < |front| {
          assert s[i] == front[i] && s[j] == front[j];
        } else {
          assert s[j] == bound - 1;
          assert s[i] == front[i] && front[i] in front;
          assert front[i] < bound - 1;
        }
      }
    }
  }

  /** A list that names every key of `t` exactly once. */
  ghost predicate Enumerates(ids: seq<nat>, t: RouterTable)
  {
    Distinct(ids) && forall i :: i in ids <==> i in t
  }

  lemma SortedIdsEnumerate(t: RouterTable, bound: nat)
    requires forall r | r in t :: r < bound
    ensures Enumerates(SortedIds(t.Keys, bound), t)
  {
    SortedIdsAscending(t.Keys, bound);
  }

  /** The vectors router `cur` receives: a copy of each neighbour's distance vector. */
  function ReceivedVectors(t: RouterTable, cur: nat): (rv: Received)
    requires cur in t
    ensures forall n :: n in rv <==> n in t[cur].neighbors && n in t
    ensures forall n | n in rv :: rv[n] == t[n].distanceVector
  {
    map n | n in t[cur].neighbors && n in t :: t[n].distanceVector
  }

  /** The relaxation router `cur` performs on the table as it currently is. */
  function Relaxed(t: RouterTable, links: LinkTable, cur: nat, reading: Reading): (Vector, Hops)
    requires cur in t
  {
    RelaxVector(cur, t[cur].distanceVector, t[cur].nextHop, t[cur].neighbors, ReceivedVectors(t, cur), links, reading)
  }

  /**
    One step: router `cur` relaxes its vector against its neighbours' current
    vectors and raises its flag when the vector changed. No other router, and
    no neighbour list, changes.
  */
  function ProcessRouter(t: RouterTable, links: LinkTable, cur: nat, reading: Reading): (r: RouterTable)
    requires cur in t
    ensures r.Keys == t.Keys
    ensures forall i | i in t && i != cur :: r[i] == t[i]
    ensures r[cur].neighbors == t[cur].neighbors
    ensures r[cur].distanceVector.Keys == t[cur].distanceVector.Keys
    ensures r[cur].nextHop.Keys == t[cur].nextHop.Keys
    ensures cur in t[cur].distanceVector ==> r[cur].distanceVector[cur] == t[cur].distanceVector[cur]
    ensures forall d | d in t[cur].distanceVector :: AtMost(r[cur].distanceVector[d], t[cur].distanceVector[d])
    ensures r[cur].updatedInIteration <==>
              t[cur].updatedInIteration || r[cur].distanceVector != t[cur].distanceVector
  {
    var e := t[cur];
    var v := Relaxed(t, links, cur, reading);
    t[cur := RouterState(e.neighbors, v.0, v.1, e.updatedInIteration || v.0 != e.distanceVector)]
  }

  /** The flags cleared at the start of a round. */
  function ClearFlags(t: RouterTable): (r: RouterTable)
    ensures r.Keys == t.Keys
    ensures forall i | i in t :: !r[i].updatedInIteration
    ensures forall i | i in t :: r[i].(updatedInIteration := t[i].updatedInIteration) == t[i]
  {
    map i | i in t :: t[i].(updatedInIteration := false)
  }

  /** No router raised its flag: the round-end test of runDvrStep and update. */
  ghost predicate NoneUpdated(t: RouterTable)
  {
    forall i | i in t :: !t[i].updatedInIteration
  }

  /** The routers of `ids` processed one after the other, in list order. */
  function RunRound(t: RouterTable, links: LinkTable, ids: seq<nat>, reading: Reading): (r: RouterTable)
    requires forall i | i in ids :: i in t
    ensures r.Keys == t.Keys
    decreases |ids|
  {
    if ids == [] then t
    else ProcessRouter(RunRound(t, links, ids[..|ids| - 1], reading), links, ids[|ids| - 1], reading)
  }

  /**
    `t` is the table part-way through the round that started from `start`:
    the first `k` routers of `ids` have been processed.
  */
  ghost predicate MidRound(t: RouterTable, start: RouterTable, links: LinkTable, ids: seq<nat>, k: nat, reading: Reading)
  {
    && (forall i | i in ids :: i in start)
    && k <= |ids|
    && (assert forall i | i in ids[..k] :: i in ids;
        t == RunRound(ClearFlags(start), links, ids[..k], reading))
  }

  /** `n` complete rounds, each starting by clearing the flags. */
  function Rounds(t: RouterTable, links: LinkTable, ids: seq<nat>, n: nat, reading: Reading): (r: RouterTable)
    requires forall i | i in ids :: i in t
    ensures r.Keys == t.Keys
  {
    if n == 0 then t
    else RunRound(ClearFlags(Rounds(t, links, ids, n - 1, reading)), links, ids, reading)
  }

  /** Router `r` would not change its vector if processed now. */
  ghost predicate Stable(t: RouterTable, links: LinkTable, r: nat, reading: Reading)
    requires r in t
  {
    Relaxed(t, links, r, reading).0 == t[r].distanceVector
  }

  /** No router would change its vector: the routing tables have converged. */
  ghost predicate FixedPoint(t: RouterTable, links: LinkTable, reading: Reading)
  {
    forall r | r in t :: Stable(t, links, r, reading)
  }

  /** Processing a stable router changes nothing at all, its next hops and flag included. */
  lemma ProcessStable(t: RouterTable, links: LinkTable, cur: nat, reading: Reading)
    requires cur in t && Stable(t, links, cur, reading)
    ensures ProcessRouter(t, links, cur, reading) == t
  {
    var e := t[cur];
    var v := Relaxed(t, links, cur, reading);
    assert v.1 == e.nextHop by {
      forall d | d in e.nextHop ensures v.1[d] == e.nextHop[d] {
      }
    }
    assert ProcessRouter(t, links, cur, reading)[cur] == e;
  }

  /** Processing a router that changes nothing leaves it stable, and the table as it was. */
  lemma ProcessUnchanged(t: RouterTable, links: LinkTable, cur: nat, reading: Reading)
    requires cur in t && !ProcessRouter(t, links, cur, reading)[cur].updatedInIteration
    ensures Stable(t, links, cur, reading)
    ensures ProcessRouter(t, links, cur, reading) == t
  {
    ProcessStable(t, links, cur, reading);
  }

  /**
    A round in which no flag was raised left every vector (and next hop)
    equal to its value at the round start, and every router it processed
    was already stable there.
  */
  lemma {:induction false} RoundWithoutUpdate(t: RouterTable, links: LinkTable, ids: seq<nat>, reading: Reading)
    requires forall i | i in ids :: i in t
    requires NoneUpdated(t)
    requires NoneUpdated(RunRound(t, links, ids, reading))
    ensures RunRound(t, links, ids, reading) == t
    ensures forall i | i in ids :: Stable(t, links, i, reading)
    decreases |ids|
  {
    if ids != [] {
      var front := ids[..|ids| - 1];
      var last := ids[|ids| - 1];
      var mid := RunRound(t, links, front, reading);
      var r := ProcessRouter(mid, links, last, reading);
      assert r == RunRound(t, links, ids, reading);
      assert NoneUpdated(mid) by {
        forall i | i in mid ensures !mid[i].updatedInIteration {
          assert i in r;
        }
      }
      RoundWithoutUpdate(t, links, front, reading);
      assert mid == t;
      assert last in r;
      ProcessUnchanged(t, links, last, reading);
      forall i | i in ids ensures Stable(t, links, i, reading) {
        if i != last {
          assert i in front by {
            var k :| 0 <= k < |ids| && ids[k] == i;
            assert front[k] == i;
          }
        }
      }
    }
  }

  /** A round over a converged table changes nothing. */
  lemma {:induction false} FixedPointRound(t: RouterTable, links: LinkTable, ids: seq<nat>, reading: Reading)
    requires forall i | i in ids :: i in t
    requires FixedPoint(t, links, reading)
    ensures RunRound(t, links, ids, reading) == t
    decreases |ids|
  {
    if ids != [] {
      FixedPointRound(t, links, ids[..|ids| - 1], reading);
      ProcessStable(t, links, ids[|ids| - 1], reading);
    }
  }

  /** Flags play no part in the relaxation. */
  lemma ClearFlagsRelaxed(t: RouterTable, links: LinkTable, r: nat, reading: Reading)
    requires r in t
    ensures ClearFlags(t)[r].distanceVector == t[r].distanceVector
    ensures Relaxed(ClearFlags(t), links, r, reading) == Relaxed(t, links, r, reading)
  {
    assert ReceivedVectors(ClearFlags(t), r) == ReceivedVectors(t, r);
  }

  lemma ClearFlagsStable(t: RouterTable, links: LinkTable, reading: Reading)
    ensures FixedPoint(ClearFlags(t), links, reading) <==> FixedPoint(t, links, reading)
  {
    forall r | r in t ensures Stable(ClearFlags(t), links, r, reading) <==> Stable(t, links, r, reading) {
      ClearFlagsRelaxed(t, links, r, reading);
    }
  }

  /**
    The convergence test is sound: when a whole round over every router
    raises no flag, the resulting table is a fixed point, and it equals the
    table the round started from.
  */
  lemma ConvergedRound(s: RouterTable, links: LinkTable, ids: seq<nat>, reading: Reading)
    requires forall i :: i in ids <==> i in s
    requires NoneUpdated(RunRound(ClearFlags(s), links, ids, reading))
    ensures RunRound(ClearFlags(s), links, ids, reading) == ClearFlags(s)
    ensures FixedPoint(RunRound(ClearFlags(s), links, ids, reading), links, reading)
    ensures FixedPoint(s, links, reading)
  {
    RoundWithoutUpdate(ClearFlags(s), links, ids, reading);
    ClearFlagsStable(s, links, reading);
  }

  /** Once converged, further rounds only clear the flags. */
  lemma {:induction false} RoundsAfterFixedPoint(t: RouterTable, links: LinkTable, ids: seq<nat>, n: nat, reading: Reading)
    requires forall i | i in ids :: i in t
    requires FixedPoint(t, links, reading) && n > 0
    ensures Rounds(t, links, ids, n, reading) == ClearFlags(t)
  {
    ClearFlagsStable(t, links, reading);
    if n == 1 {
      FixedPointRound(ClearFlags(t), links, ids, reading);
    } else {
      RoundsAfterFixedPoint(t, links, ids, n - 1, reading);
      assert ClearFlags(ClearFlags(t)) == ClearFlags(t);
      FixedPointRound(ClearFlags(t), links, ids, reading);
    }
  }

  /**
    At a fixed point every entry satisfies the Bellman-Ford equations'
    inequality: no neighbour offers a cheaper route to any destination.
  */
  lemma FixedPointBellman(t: RouterTable, links: LinkTable, reading: Reading, r: nat, n: nat, d: nat)
    requires FixedPoint(t, links, reading)
    requires r in t && n in t && n in t[r].neighbors
    requires d in t[r].distanceVector && d != r
    ensures AtMost(t[r].distanceVector[d], Add(LinkCost(links, r, n), Offered(t[n].distanceVector, d, reading)))
  {
    assert Stable(t, links, r, reading);
    var k :| 0 <= k < |t[r].neighbors| && t[r].neighbors[k] == n;
    assert n in ReceivedVectors(t, r);
  }

  // ----- the topology invariant through the engine -----

  lemma ProcessRouterKeepsInvariant(t: RouterTable, links: LinkTable, nextId: nat, cur: nat, reading: Reading)
    requires TableInv(t, links, nextId) && cur in t
    ensures TableInv(ProcessRouter(t, links, cur, reading), links, nextId)
  {
    var r := ProcessRouter(t, links, cur, reading);
    forall i | i in r ensures RouterShaped(r, i) && NeighborsOf(r, links, i) {
      assert RouterShaped(t, i) && NeighborsOf(t, links, i);
      if i == cur {
        var e := t[cur];
        RelaxVectorHopsMatch(cur, e.distanceVector, e.nextHop, e.neighbors, ReceivedVectors(t, cur), links, reading);
      }
    }
    forall k | k in links ensures LinkShaped(r, links, k) {
      assert LinkShaped(t, links, k);
    }
  }

  lemma ClearFlagsKeepsInvariant(t: RouterTable, links: LinkTable, nextId: nat)
    requires TableInv(t, links, nextId)
    ensures TableInv(ClearFlags(t), links, nextId)
  {
    var r := ClearFlags(t);
    forall i | i in r ensures RouterShaped(r, i) && NeighborsOf(r, links, i) {
      assert RouterShaped(t, i) && NeighborsOf(t, links, i);
    }
    forall k | k in links ensures LinkShaped(r, links, k) {
      assert LinkShaped(t, links, k);
    }
  }

  lemma {:induction false} RunRoundKeepsInvariant(t: RouterTable, links: LinkTable, nextId: nat, ids: seq<nat>, reading: Reading)
    requires TableInv(t, links, nextId) && forall i | i in ids :: i in t
    ensures TableInv(RunRound(t, links, ids, reading), links, nextId)
    decreases |ids|
  {
    if ids != [] {
      RunRoundKeepsInvariant(t, links, nextId, ids[..|ids| - 1], reading);
      ProcessRouterKeepsInvariant(RunRound(t, links, ids[..|ids| - 1], reading), links, nextId, ids[|ids| - 1], reading);
    }
  }

  /** One more router of the round: the step relation the imperative drivers follow. */
  lemma RunRoundStep(t: RouterTable, links: LinkTable, ids: seq<nat>, k: nat, reading: Reading)
    requires forall i | i in ids :: i in t
    requires k < |ids|
    ensures RunRound(t, links, ids[..k + 1], reading)
            == ProcessRouter(RunRound(t, links, ids[..k], reading), links, ids[k], reading)
  {
    assert ids[..k + 1][..k] == ids[..k];
  }

  /** A round starts from the table with its flags cleared and no router processed. */
  lemma MidRoundStart(s: RouterTable, links: LinkTable, ids: seq<nat>, reading: Reading)
    requires forall i | i in ids :: i in s
    ensures MidRound(ClearFlags(s), s, links, ids, 0, reading)
  {
    assert ids[..0] == [];
  }

  /** Processing the next router of the list moves the round on by one. */
  lemma MidRoundNext(t: RouterTable, s: RouterTable, links: LinkTable, ids: seq<nat>, k: nat, reading: Reading)
    requires MidRound(t, s, links, ids, k, reading) && k < |ids|
    ensures ids[k] in t
    ensures MidRound(ProcessRouter(t, links, ids[k], reading), s, links, ids, k + 1, reading)
  {
    RunRoundStep(ClearFlags(s), links, ids, k, reading);
  }

  /** A round that has processed the whole list is the complete round. */
  lemma MidRoundEnd(t: RouterTable, s: RouterTable, links: LinkTable, ids: seq<nat>, k: nat, reading: Reading)
    requires MidRound(t, s, links, ids, k, reading) && k == |ids|
    ensures t == RunRound(ClearFlags(s), links, ids, reading)
  {
    assert ids[..k] == ids;
  }

  /** A round that ends with no flag raised ends at a fixed point. */
  lemma MidRoundConverged(t: RouterTable, s: RouterTable, links: LinkTable, ids: seq<nat>, k: nat, reading: Reading)
    requires MidRound(t, s, links, ids, k, reading) && k == |ids|
    requires forall i :: i in ids <==> i in t
    requires NoneUpdated(t)
    ensures FixedPoint(t, links, reading)
  {
    MidRoundEnd(t, s, links, ids, k, reading);
    ConvergedRound(s, links, ids, reading);
  }
}
