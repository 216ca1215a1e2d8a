/**
  The globals of script.js that the simulation reads and writes (`routers`,
  `links`, `nextRouterId`, `simulationRunning`, `isConverged`,
  `currentIteration`, `currentRouterIndex`) as one value, and the meaning of
  runDvrStep and runDvr on it: `StepNet` is one call of runDvrStep, `RunFrom`
  the chain of calls runDvr makes until a step reports the end.
*/
module Globals {
  import opened Costs
  import opened Links
  import opened Relaxation
  import opened Topology
  import opened Engine

  /** runDvrStep gives up after this many rounds. */
  const MaxIterations: nat := 20

  datatype Net = Net(
    routers: RouterTable,
    links: LinkTable,
    nextRouterId: nat,
    simulationRunning: bool,
    isConverged: bool,
    currentIteration: nat,
    currentRouterIndex: nat)

  /** The globals after resetSimulation, and at page load. */
  function Initial(): Net
  {
    Net(map[], map[], 1, false, false, 0, 0)
  }

  /** `Object.keys(routers)`: the router ids in ascending order. */
  function Ids(n: Net): seq<nat>
  {
    SortedIds(n.routers.Keys, n.nextRouterId)
  }

  /**
    The routers keep the topology invariant and the counters are in range:
    at most `MaxIterations` rounds, a run in progress has rounds left and
    has not converged, and a router index is kept only while a run is on.
  */
  ghost predicate NetValid(n: Net)
  {
    && TableInv(n.routers, n.links, n.nextRouterId)
    && n.currentIteration <= MaxIterations
    && (n.simulationRunning ==> n.currentIteration < MaxIterations && !n.isConverged)
    && (!n.simulationRunning ==> n.currentRouterIndex == 0)
    && (n.currentRouterIndex == 0 || n.currentRouterIndex < |n.routers|)
  }

  /** A duplicate-free list names as many ids as the set it enumerates. */
  lemma {:induction false} DistinctLength(ids: seq<nat>, s: set<nat>)
    requires Distinct(ids) && forall i :: i in ids <==> i in s
    ensures |ids| == |s|
    decreases |ids|
  {
    if ids != [] {
      var last := ids[|ids| - 1];
      var front := ids[..|ids| - 1];
      assert forall i :: i in front <==> i in s - {last} by {
        forall i ensures i in front <==> i in s - {last} {
          if i in front {
            var k :| 0 <= k < |front| && front[k] == i;
            assert ids[k] == i && k < |ids| - 1;
          }
          if i in s - {last} {
            var k :| 0 <= k < |ids| && ids[k] == i;
            assert k != |ids| - 1;
            assert front[k] == i;
          }
        }
      }
      DistinctLength(front, s - {last});
    }
  }

  /** `Object.keys(routers)` names every router once, so it is as long as there are routers. */
  lemma IdsCount(t: RouterTable, bound: nat)
    requires forall r | r in t :: r < bound
    ensures Enumerates(SortedIds(t.Keys, bound), t)
    ensures |SortedIds(t.Keys, bound)| == |t|
  {
    SortedIdsEnumerate(t, bound);
    DistinctLength(SortedIds(t.Keys, bound), t.Keys);
  }

  /**
    runDvrStep. With fewer than two routers the run stops and nothing else
    changes. Otherwise the router at `currentRouterIndex` in ascending id
    order is processed, after every flag is cleared when it is the first of
    the round. After the last router, a round that raised no flag is
    convergence and ends the run; otherwise the round counter moves on and
    the run ends once `MaxIterations` rounds are done.
  */
  ghost function StepNet(n: Net): Net
    requires NetValid(n) && n.simulationRunning
  {
    if |n.routers| < 2 then n.(simulationRunning := false)
    else
      IdsLength(n);
      var ids := Ids(n);
      var k := n.currentRouterIndex;
      var t := ProcessRouter(if k == 0 then ClearFlags(n.routers) else n.routers, n.links, ids[k], ZeroAsInfinity);
      if k + 1 < |ids| then n.(routers := t, currentRouterIndex := k + 1)
      else if NoneUpdated(t) then
        n.(routers := t, currentRouterIndex := 0, isConverged := true, simulationRunning := false)
      else
        n.(routers := t, currentRouterIndex := 0, currentIteration := n.currentIteration + 1,
           simulationRunning := n.currentIteration + 1 < MaxIterations)
  }

  /**
    A step keeps the invariant, touches only the routers' states and the
    run bookkeeping, and moves forward: to the next router of the round, to
    the next round, or to the end of the run.
  */
  lemma StepNetValid(n: Net)
    requires NetValid(n) && n.simulationRunning
    ensures var r := StepNet(n);
      && NetValid(r)
      && r.links == n.links && r.nextRouterId == n.nextRouterId
      && r.routers.Keys == n.routers.Keys && |r.routers| == |n.routers|
      && (|n.routers| < 2 ==> r == n.(simulationRunning := false))
      && (|n.routers| >= 2 && n.currentRouterIndex + 1 < |n.routers| ==>
            r.simulationRunning && !r.isConverged && r.currentIteration == n.currentIteration &&
            r.currentRouterIndex == n.currentRouterIndex + 1)
      && (|n.routers| >= 2 && n.currentRouterIndex + 1 == |n.routers| ==>
            && r.currentRouterIndex == 0
            && (r.isConverged <==> NoneUpdated(r.routers))
            && (r.isConverged ==> r.currentIteration == n.currentIteration)
            && (!r.isConverged ==> r.currentIteration == n.currentIteration + 1)
            && (r.simulationRunning <==> !r.isConverged && r.currentIteration < MaxIterations))
  {
    if |n.routers| >= 2 {
      IdsLength(n);
      var k := n.currentRouterIndex;
      var before := if k == 0 then ClearFlags(n.routers) else n.routers;
      if k == 0 {
        ClearFlagsKeepsInvariant(n.routers, n.links, n.nextRouterId);
      }
      StepNetRouters(n);
      ProcessRouterKeepsInvariant(before, n.links, n.nextRouterId, Ids(n)[k], ZeroAsInfinity);
      var r := StepNet(n);
      assert |r.routers| == |n.routers| by {
        assert r.routers.Keys == n.routers.Keys;
      }
    }
  }

  /** `Object.keys(routers)` is as long as there are routers. */
  lemma IdsLength(n: Net)
    requires NetValid(n)
    ensures |Ids(n)| == |n.routers|
    ensures forall i :: i in Ids(n) <==> i in n.routers
  {
    IdsCount(n.routers, n.nextRouterId);
  }

  /** The routers after a step: router `Ids(n)[k]` processed, on the cleared table when `k == 0`. */
  lemma StepNetRouters(n: Net)
    requires NetValid(n) && n.simulationRunning && |n.routers| >= 2
    ensures n.currentRouterIndex < |Ids(n)|
    ensures StepNet(n).routers ==
              ProcessRouter(if n.currentRouterIndex == 0 then ClearFlags(n.routers) else n.routers,
                            n.links, Ids(n)[n.currentRouterIndex], ZeroAsInfinity)
  {
    IdsLength(n);
  }

  /**
    A step processes the next router of the round that started from
    `start`: the first `k + 1` routers of the round are done afterwards. A
    step that reports convergence has reached a fixed point: no router would
    change its vector.
  */
  lemma StepNetRound(n: Net, start: RouterTable)
    requires NetValid(n) && n.simulationRunning && |n.routers| >= 2
    requires 0 < n.currentRouterIndex ==>
               MidRound(n.routers, start, n.links, Ids(n), n.currentRouterIndex, ZeroAsInfinity)
    ensures MidRound(StepNet(n).routers, if n.currentRouterIndex == 0 then n.routers else start,
                     n.links, Ids(n), n.currentRouterIndex + 1, ZeroAsInfinity)
    ensures StepNet(n).isConverged ==> FixedPoint(StepNet(n).routers, n.links, ZeroAsInfinity)
  {
    StepNetRouters(n);
    IdsLength(n);
    var ids := Ids(n);
    var k := n.currentRouterIndex;
    var s := if k == 0 then n.routers else start;
    if k == 0 {
      MidRoundStart(n.routers, n.links, ids, ZeroAsInfinity);
    }
    var before := if k == 0 then ClearFlags(n.routers) else n.routers;
    MidRoundNext(before, s, n.links, ids, k, ZeroAsInfinity);
    if StepNet(n).isConverged {
      assert k + 1 == |ids| && NoneUpdated(StepNet(n).routers);
      MidRoundConverged(StepNet(n).routers, s, n.links, ids, k + 1, ZeroAsInfinity);
    }
  }

  /**
    runDvr's chain of steps: `animateStep` calls runDvrStep again as long as
    it reports that the run goes on.
  */
  ghost function RunFrom(n: Net): Net
    requires NetValid(n)
    decreases n.simulationRunning, MaxIterations - n.currentIteration, |n.routers| - n.currentRouterIndex
  {
    if !n.simulationRunning then n
    else
      StepNetValid(n);
      RunFrom(StepNet(n))
  }

  /** The globals as runDvr sets them before its first step. */
  function Started(n: Net): Net
  {
    n.(simulationRunning := true, isConverged := false, currentIteration := 0, currentRouterIndex := 0)
  }

  /** runDvr: nothing while a run is on; otherwise a run from round 0 until a step reports the end. */
  ghost function RunDvrSpec(n: Net): Net
    requires NetValid(n)
  {
    if n.simulationRunning then n else RunFrom(Started(n))
  }

  /** A finished chain of steps keeps the invariant and stops; it changes only the routers' states and the counters. */
  lemma {:induction false} RunFromValid(n: Net)
    requires NetValid(n)
    ensures var r := RunFrom(n);
      && NetValid(r) && !r.simulationRunning
      && r.links == n.links && r.nextRouterId == n.nextRouterId && r.routers.Keys == n.routers.Keys
    decreases n.simulationRunning, MaxIterations - n.currentIteration, |n.routers| - n.currentRouterIndex
  {
    if n.simulationRunning {
      StepNetValid(n);
      RunFromValid(StepNet(n));
    }
  }

  /**
    A finished run from `t`: it converged in round `iteration`, at a fixed
    point, or it ran out of rounds; either way the routers are the rounds
    completed.
  */
  ghost predicate RunEnded(t: RouterTable, r: RouterTable, links: LinkTable, ids: seq<nat>,
                           converged: bool, iteration: nat)
    requires forall i | i in ids :: i in t
  {
    && r == Rounds(t, links, ids, iteration + (if converged then 1 else 0), ZeroAsInfinity)
    && (converged ==> FixedPoint(r, links, ZeroAsInfinity) && iteration < MaxIterations)
    && (!converged ==> iteration == MaxIterations)
  }

  /**
    Where a run from `t` stands: at the start of round `iteration`, or
    part-way through it (the round started from `start`), or finished.
  */
  ghost predicate RunProgress(t: RouterTable, r: RouterTable, start: RouterTable, links: LinkTable, ids: seq<nat>,
                              continues: bool, converged: bool, iteration: nat, index: nat)
    requires forall i | i in ids :: i in t
  {
    if continues then
      if index == 0 then r == Rounds(t, links, ids, iteration, ZeroAsInfinity)
      else start == Rounds(t, links, ids, iteration, ZeroAsInfinity)
    else RunEnded(t, r, links, ids, converged, iteration)
  }

  /** A step that ends a round completes round `iteration + 1` of the run from `t`. */
  lemma RoundEnd(t: RouterTable, r: RouterTable, start: RouterTable, links: LinkTable, ids: seq<nat>, iteration: nat)
    requires forall i | i in ids :: i in t
    requires start == Rounds(t, links, ids, iteration, ZeroAsInfinity)
    requires MidRound(r, start, links, ids, |ids|, ZeroAsInfinity)
    ensures r == Rounds(t, links, ids, iteration + 1, ZeroAsInfinity)
  {
    MidRoundEnd(r, start, links, ids, |ids|, ZeroAsInfinity);
  }

  /**
    A step in the middle of a round: the round still started from the same
    table, so the run stays described.
  */
  lemma ProgressMid(t: RouterTable, links: LinkTable, ids: seq<nat>, r: RouterTable, start: RouterTable,
                    iteration: nat, k: nat, s: RouterTable, r': RouterTable)
    requires forall i | i in ids :: i in t
    requires RunProgress(t, r, start, links, ids, true, false, iteration, k)
    requires s == if k == 0 then r else start
    ensures s == Rounds(t, links, ids, iteration, ZeroAsInfinity)
    ensures RunProgress(t, r', s, links, ids, true, false, iteration, k + 1)
  {
  }

  /**
    A step that ends a round: the routers are the completed round, and the
    run either converges, moves on to the next round, or stops at the
    round limit.
  */
  lemma ProgressRoundEnd(t: RouterTable, links: LinkTable, ids: seq<nat>, s: RouterTable, iteration: nat,
                         r': RouterTable, continues: bool, converged: bool, iteration': nat)
    requires forall i | i in ids :: i in t
    requires s == Rounds(t, links, ids, iteration, ZeroAsInfinity) && iteration < MaxIterations
    requires MidRound(r', s, links, ids, |ids|, ZeroAsInfinity)
    requires converged ==> iteration' == iteration && FixedPoint(r', links, ZeroAsInfinity)
    requires !converged ==> iteration' == iteration + 1
    requires continues <==> !converged && iteration' < MaxIterations
    ensures RunProgress(t, r', s, links, ids, continues, converged, iteration', 0)
  {
    RoundEnd(t, r', s, links, ids, iteration);
  }

  /** One step keeps a run's progress described. */
  lemma StepProgress(t: RouterTable, n: Net, start: RouterTable)
    requires NetValid(n) && n.simulationRunning && n.routers.Keys == t.Keys && |t| >= 2
    requires 0 < n.currentRouterIndex ==>
               MidRound(n.routers, start, n.links, Ids(n), n.currentRouterIndex, ZeroAsInfinity)
    requires forall i | i in Ids(n) :: i in t
    requires RunProgress(t, n.routers, start, n.links, Ids(n), true, false, n.currentIteration, n.currentRouterIndex)
    ensures var s := if n.currentRouterIndex == 0 then n.routers else start;
      && (0 < StepNet(n).currentRouterIndex ==>
            MidRound(StepNet(n).routers, s, n.links, Ids(n), StepNet(n).currentRouterIndex, ZeroAsInfinity))
      && RunProgress(t, StepNet(n).routers, s, n.links, Ids(n), StepNet(n).simulationRunning,
                     StepNet(n).isConverged, StepNet(n).currentIteration, StepNet(n).currentRouterIndex)
  {
    IdsLength(n);
    if n.currentRouterIndex + 1 < |n.routers| {
      StepProgressMid(t, n, start);
    } else {
      StepProgressEnd(t, n, start);
    }
  }

  /** A step inside the round. */
  lemma StepProgressMid(t: RouterTable, n: Net, start: RouterTable)
    requires NetValid(n) && n.simulationRunning && n.routers.Keys == t.Keys && |t| >= 2
    requires 0 < n.currentRouterIndex ==>
               MidRound(n.routers, start, n.links, Ids(n), n.currentRouterIndex, ZeroAsInfinity)
    requires forall i | i in Ids(n) :: i in t
    requires RunProgress(t, n.routers, start, n.links, Ids(n), true, false, n.currentIteration, n.currentRouterIndex)
    requires n.currentRouterIndex + 1 < |n.routers|
    ensures var s := if n.currentRouterIndex == 0 then n.routers else start;
      && (0 < StepNet(n).currentRouterIndex ==>
            MidRound(StepNet(n).routers, s, n.links, Ids(n), StepNet(n).currentRouterIndex, ZeroAsInfinity))
      && RunProgress(t, StepNet(n).routers, s, n.links, Ids(n), StepNet(n).simulationRunning,
                     StepNet(n).isConverged, StepNet(n).currentIteration, StepNet(n).currentRouterIndex)
  {
    StepNetValid(n);
    StepNetRound(n, start);
    assert StepNet(n).currentRouterIndex == n.currentRouterIndex + 1;
    var s := if n.currentRouterIndex == 0 then n.routers else start;
    ProgressMid(t, n.links, Ids(n), n.routers, start, n.currentIteration, n.currentRouterIndex, s, StepNet(n).routers);
  }

  /** The step that ends a round. */
  lemma StepProgressEnd(t: RouterTable, n: Net, start: RouterTable)
    requires NetValid(n) && n.simulationRunning && n.routers.Keys == t.Keys && |t| >= 2
    requires 0 < n.currentRouterIndex ==>
               MidRound(n.routers, start, n.links, Ids(n), n.currentRouterIndex, ZeroAsInfinity)
    requires forall i | i in Ids(n) :: i in t
    requires RunProgress(t, n.routers, start, n.links, Ids(n), true, false, n.currentIteration, n.currentRouterIndex)
    requires n.currentRouterIndex + 1 == |n.routers|
    ensures var s := if n.currentRouterIndex == 0 then n.routers else start;
      && (0 < StepNet(n).currentRouterIndex ==>
            MidRound(StepNet(n).routers, s, n.links, Ids(n), StepNet(n).currentRouterIndex, ZeroAsInfinity))
      && RunProgress(t, StepNet(n).routers, s, n.links, Ids(n), StepNet(n).simulationRunning,
                     StepNet(n).isConverged, StepNet(n).currentIteration, StepNet(n).currentRouterIndex)
  {
    IdsLength(n);
    StepNetValid(n);
    StepNetRound(n, start);
    var s := if n.currentRouterIndex == 0 then n.routers else start;
    ProgressMid(t, n.links, Ids(n), n.routers, start, n.currentIteration, n.currentRouterIndex, s, StepNet(n).routers);
    ProgressRoundEnd(t, n.links, Ids(n), s, n.currentIteration, StepNet(n).routers,
                     StepNet(n).simulationRunning, StepNet(n).isConverged, StepNet(n).currentIteration);
  }

  /** The chain of steps from a described point ends where `RunProgress` says a finished run ends. */
  lemma {:induction false} RunFromRounds(t: RouterTable, n: Net, start: RouterTable, ids: seq<nat>)
    requires NetValid(n) && n.routers.Keys == t.Keys && |t| >= 2 && ids == Ids(n)
    requires n.simulationRunning && 0 < n.currentRouterIndex ==>
               MidRound(n.routers, start, n.links, ids, n.currentRouterIndex, ZeroAsInfinity)
    requires forall i | i in ids :: i in t
    requires RunProgress(t, n.routers, start, n.links, ids, n.simulationRunning, n.isConverged,
                         n.currentIteration, n.currentRouterIndex)
    ensures RunEnded(t, RunFrom(n).routers, n.links, ids, RunFrom(n).isConverged, RunFrom(n).currentIteration)
    decreases n.simulationRunning, MaxIterations - n.currentIteration, |n.routers| - n.currentRouterIndex
  {
    if n.simulationRunning {
      StepNetValid(n);
      StepProgress(t, n, start);
      RunFromRounds(t, StepNet(n), if n.currentRouterIndex == 0 then n.routers else start, ids);
    }
  }

  /** runDvr from a stopped state ends stopped, with the invariant kept and only the routers' states and the counters changed. */
  lemma RunDvrValid(n: Net)
    requires NetValid(n) && !n.simulationRunning
    ensures var r := RunDvrSpec(n);
      && NetValid(r) && !r.simulationRunning
      && r.links == n.links && r.nextRouterId == n.nextRouterId && r.routers.Keys == n.routers.Keys
  {
    RunFromValid(Started(n));
  }

  /** With fewer than two routers runDvr processes nothing: the run stops at once, unconverged, in round 0. */
  lemma RunDvrFewRouters(n: Net)
    requires NetValid(n) && !n.simulationRunning && |n.routers| < 2
    ensures var r := RunDvrSpec(n);
      r.routers == n.routers && !r.isConverged && r.currentIteration == 0 && !r.simulationRunning
  {
    var m := Started(n);
    StepNetValid(m);
    assert RunFrom(m) == RunFrom(StepNet(m)) == StepNet(m);
  }

  /**
    With two routers or more, runDvr leaves the rounds completed from the
    routers it found, in ascending id order: a converged run stops at a
    fixed point within `MaxIterations` rounds, an unconverged one after
    exactly `MaxIterations`.
  */
  lemma RunDvrRounds(n: Net)
    requires NetValid(n) && !n.simulationRunning && |n.routers| >= 2
    ensures RunEnded(n.routers, RunDvrSpec(n).routers, n.links, Ids(n), RunDvrSpec(n).isConverged,
                     RunDvrSpec(n).currentIteration)
  {
    RunFromRounds(n.routers, Started(n), n.routers, Ids(n));
  }
}
