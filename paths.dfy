/**
  The path resolver of script.js (findPath) as values: follow
  `nextHop[current][to]` from the source until the destination is reached,
  with its guards for an unconverged network, equal endpoints, an
  unreachable destination, a missing next hop and a path longer than the
  number of routers.
*/
module Paths {
  import opened Wrappers
  import opened Costs
  import opened Relaxation
  import opened Topology

  datatype PathError =
    | NotConverged    // "Please run DVR algorithm first to find paths"
    | SameRouter      // "Source and destination are the same"
    | Unreachable     // "No path exists from Router ..."
    | IncompletePath  // "Path incomplete from Router ..."
    | LoopDetected    // "Error: Loop detected in path"
    | MissingRouter   // a next hop names a router that has since been deleted

  datatype PathOutcome = Found(path: seq<nat>, cost: int) | Failed(error: PathError)

  /** `routers[at].nextHop[to]`, with a missing key read as null. */
  function HopToward(t: RouterTable, at: nat, to: nat): Option<nat>
    requires at in t
  {
    if to in t[at].nextHop then t[at].nextHop[to] else None
  }

  /** Each element after position `from` is the next hop toward `to` of the one before it. */
  ghost predicate HopChain(t: RouterTable, to: nat, p: seq<nat>, from: nat)
  {
    forall i | from <= i < |p| - 1 :: p[i] in t && HopToward(t, p[i], to) == Some(p[i + 1])
  }

  /**
    The traversal loop, from a path built so far whose last element is the
    current hop. The length check follows the push, so a path that reaches
    `to` with more than `limit` elements is still reported as a loop.
  */
  function Walk(t: RouterTable, to: nat, path: seq<nat>, limit: nat): (r: Result<seq<nat>, PathError>)
    requires 0 < |path| <= limit
    decreases limit - |path|
  {
    var cur := path[|path| - 1];
    if cur == to then Success(path)
    else if cur !in t then Failure(MissingRouter)
    else match HopToward(t, cur, to)
      case None => Failure(IncompletePath)
      case Some(n) =>
        if |path| + 1 > limit then Failure(LoopDetected)
        else Walk(t, to, path + [n], limit)
  }

  /**
    What a completed walk returns: the path it was given, extended along the
    next-hop chain until the first arrival at `to`, and no longer than `limit`.
  */
  lemma {:induction false} WalkShape(t: RouterTable, to: nat, path: seq<nat>, limit: nat)
    requires 0 < |path| <= limit
    requires Walk(t, to, path, limit).Success?
    ensures var p := Walk(t, to, path, limit).value;
      && |path| <= |p| <= limit
      && p[..|path|] == path
      && p[|p| - 1] == to
      && HopChain(t, to, p, |path| - 1)
      && forall i | |path| - 1 <= i < |p| - 1 :: p[i] != to
    decreases limit - |path|
  {
    var cur := path[|path| - 1];
    if cur != to {
      var n := HopToward(t, cur, to).value;
      var next := path + [n];
      WalkShape(t, to, next, limit);
      var p := Walk(t, to, path, limit).value;
      assert p == Walk(t, to, next, limit).value;
      assert p[..|path|] == next[..|path|] == path;
      assert p[|path| - 1] == cur && p[|path|] == n;
    }
  }

  /**
    A next-hop chain that reaches `to` only at its end never repeats a
    router: the hops are a function of the current router, so a repeat
    would make the chain cycle without reaching `to`.
  */
  lemma {:induction false} HopChainDistinct(t: RouterTable, to: nat, p: seq<nat>)
    requires 0 < |p| && p[|p| - 1] == to
    requires HopChain(t, to, p, 0)
    requires forall i | 0 <= i < |p| - 1 :: p[i] != to
    ensures Distinct(p)
  {
    forall i, j | 0 <= i < j < |p| ensures p[i] != p[j] {
      if p[i] == p[j] {
        ChainRepeats(t, to, p, i, j, |p| - 1 - j);
        assert false;
      }
    }
  }

  lemma {:induction false} ChainRepeats(t: RouterTable, to: nat, p: seq<nat>, i: nat, j: nat, k: nat)
    requires i < j && j + k < |p| && p[i] == p[j]
    requires HopChain(t, to, p, 0)
    ensures p[i + k] == p[j + k]
  {
    if k > 0 {
      ChainRepeats(t, to, p, i, j, k - 1);
      assert HopToward(t, p[i + k - 1], to) == Some(p[i + k]);
      assert HopToward(t, p[j + k - 1], to) == Some(p[j + k]);
    }
  }

  /** findPath, as a function of the routing state it reads. */
  function FindPathSpec(t: RouterTable, converged: bool, from: nat, to: nat): PathOutcome
    requires from in t && to in t && to in t[from].distanceVector
  {
    if !converged then Failed(NotConverged)
    else if from == to then Failed(SameRouter)
    else if HopToward(t, from, to).None? || t[from].distanceVector[to] == Inf then Failed(Unreachable)
    else match Walk(t, to, [from], |t|)
      case Success(p) => Found(p, t[from].distanceVector[to].value)
      case Failure(e) => Failed(e)
  }

  /**
    The guards, in order: an unconverged network, equal endpoints, and an
    unreachable destination are each reported before any hop is followed.
  */
  lemma FindPathGuards(t: RouterTable, converged: bool, from: nat, to: nat)
    requires from in t && to in t && to in t[from].distanceVector
    ensures FindPathSpec(t, converged, from, to) == Failed(NotConverged) <==> !converged
    ensures FindPathSpec(t, converged, from, to) == Failed(SameRouter) <==> converged && from == to
    ensures FindPathSpec(t, converged, from, to) == Failed(Unreachable) <==>
              converged && from != to && (HopToward(t, from, to).None? || t[from].distanceVector[to] == Inf)
  {
    if converged && from != to && HopToward(t, from, to).Some? && t[from].distanceVector[to] != Inf {
      WalkErrors(t, to, [from], |t|);
    }
  }

  /**
    On a table that keeps next hops and costs in agreement, the two halves
    of the reachability guard coincide: a destination is reported
    unreachable exactly when its cost is Infinity.
  */
  lemma FindPathUnreachable(t: RouterTable, converged: bool, from: nat, to: nat)
    requires from in t && to in t && RouterShaped(t, from)
    ensures to in t[from].distanceVector
    ensures FindPathSpec(t, converged, from, to) == Failed(Unreachable) <==>
              converged && from != to && t[from].distanceVector[to] == Inf
  {
    FindPathGuards(t, converged, from, to);
  }

  /** The walk itself only ever fails with one of its own three errors. */
  lemma {:induction false} WalkErrors(t: RouterTable, to: nat, path: seq<nat>, limit: nat)
    requires 0 < |path| <= limit
    ensures Walk(t, to, path, limit).Failure? ==>
              Walk(t, to, path, limit).error in {MissingRouter, IncompletePath, LoopDetected}
    decreases limit - |path|
  {
    var cur := path[|path| - 1];
    if cur != to && cur in t && HopToward(t, cur, to).Some? && |path| + 1 <= limit {
      WalkErrors(t, to, path + [HopToward(t, cur, to).value], limit);
    }
  }

  /**
    A path that is found starts at `from`, ends at `to`, follows the
    next-hop pointers toward `to`, never repeats a router, has at most as
    many routers as the network, and is reported with cost `dv[from][to]`.
  */
  lemma FindPathFound(t: RouterTable, converged: bool, from: nat, to: nat)
    requires from in t && to in t && to in t[from].distanceVector
    requires FindPathSpec(t, converged, from, to).Found?
    ensures var o := FindPathSpec(t, converged, from, to);
      && 2 <= |o.path| <= |t|
      && o.path[0] == from && o.path[|o.path| - 1] == to
      && HopChain(t, to, o.path, 0)
      && Distinct(o.path)
      && t[from].distanceVector[to] == Fin(o.cost)
  {
    WalkShape(t, to, [from], |t|);
    var p := Walk(t, to, [from], |t|).value;
    assert p[0] == [from][0];
    HopChainDistinct(t, to, p);
  }
}
