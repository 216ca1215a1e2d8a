/**
  The distance-vector relaxation shared by script.js (Router.updateDistanceVector)
  and dvr.py (Node.update_distance_vector): for each neighbour in list order and
  each destination other than the router itself, the candidate
  `linkCost + neighbourVector[dest]` replaces the current entry, with the
  neighbour as next hop, when it is strictly smaller. This is the update of
  section 2 of RFC 1058 without RIP's 16-hop infinity, split horizon or timers.

  Within one neighbour the destinations are independent of each other, so the
  relaxation is specified destination by destination: `RelaxEntry` folds the
  neighbour list over one entry, and `RelaxVector` applies it to every entry.
*/
module Relaxation {
  import opened Wrappers
  import opened Costs
  import opened Links

  type Vector = map<nat, Cost>
  type Hops = map<nat, Option<nat>>
  /** The vectors a router has received, keyed by the neighbour that sent them. */
  type Received = map<nat, Vector>

  /** How an entry of a received vector is read. */
  datatype Reading =
    | ZeroAsInfinity  // script.js: `neighborVector[dest] || Infinity`, so a 0 entry also reads as Infinity
    | ZeroAsZero      // dvr.py: `neighbor_vector.get(dest, inf)`, only a missing entry reads as infinity

  /** The entry for `d` of a received vector, as the implementation reads it. */
  function Offered(nv: Vector, d: nat, reading: Reading): Cost
  {
    if d !in nv then Inf
    else if reading == ZeroAsInfinity && nv[d] == Fin(0) then Inf
    else nv[d]
  }

  /** The cost of reaching `d` through neighbour `n`. */
  function Candidate(self: nat, n: nat, d: nat, received: Received, links: LinkTable, reading: Reading): Cost
    requires n in received
  {
    Add(LinkCost(links, self, n), Offered(received[n], d, reading))
  }

  /**
    One destination's entry (cost and next hop) after offering it the
    candidate of every neighbour in `ns`, in order. The result is no more than
    the starting cost and no more than any candidate; an unchanged cost keeps
    its next hop (ties never switch).
  */
  function RelaxEntry(self: nat, d: nat, cur: Cost, hop: Option<nat>, ns: seq<nat>,
                      received: Received, links: LinkTable, reading: Reading): (r: (Cost, Option<nat>))
    ensures AtMost(r.0, cur)
    ensures r.0 == cur ==> r.1 == hop
    ensures forall k | 0 <= k < |ns| && ns[k] in received ::
              AtMost(r.0, Candidate(self, ns[k], d, received, links, reading))
    decreases |ns|
  {
    if ns == [] then (cur, hop)
    else
      var n := ns[0];
      assert forall k | 1 <= k < |ns| :: ns[k] == ns[1..][k - 1];
      if n in received && Less(Candidate(self, n, d, received, links, reading), cur) then
        RelaxEntry(self, d, Candidate(self, n, d, received, links, reading), Some(n), ns[1..], received, links, reading)
      else
        RelaxEntry(self, d, cur, hop, ns[1..], received, links, reading)
  }

  /**
    Entry `r` was set by neighbour `ns[k]`: it is that neighbour's candidate
    with that neighbour as next hop, and every earlier neighbour offered
    strictly more.
  */
  ghost predicate WonBy(self: nat, d: nat, ns: seq<nat>, received: Received, links: LinkTable, reading: Reading,
                        r: (Cost, Option<nat>), k: nat)
  {
    && k < |ns| && ns[k] in received
    && r == (Candidate(self, ns[k], d, received, links, reading), Some(ns[k]))
    && (forall j | 0 <= j < k && ns[j] in received :: Less(r.0, Candidate(self, ns[j], d, received, links, reading)))
  }

  /** A winner in the tail of the list, beating the head's candidate, is a winner in the whole list. */
  lemma WonByTail(self: nat, d: nat, ns: seq<nat>, received: Received, links: LinkTable, reading: Reading,
                  r: (Cost, Option<nat>), k: nat)
    requires |ns| > 0 && WonBy(self, d, ns[1..], received, links, reading, r, k)
    requires ns[0] in received ==> Less(r.0, Candidate(self, ns[0], d, received, links, reading))
    ensures WonBy(self, d, ns, received, links, reading, r, k + 1)
  {
    assert ns[k + 1] == ns[1..][k];
    forall j | 0 <= j < k + 1 && ns[j] in received
      ensures Less(r.0, Candidate(self, ns[j], d, received, links, reading))
    {
      if j > 0 {
        assert ns[j] == ns[1..][j - 1];
      }
    }
  }

  /**
    A lowered entry was set by the first neighbour, in list order, whose
    candidate equals the final cost: every earlier neighbour offered strictly
    more, so among equal candidates the earliest one wins.
  */
  lemma {:induction false} RelaxEntryWinner(self: nat, d: nat, cur: Cost, hop: Option<nat>, ns: seq<nat>,
                                            received: Received, links: LinkTable, reading: Reading)
    requires RelaxEntry(self, d, cur, hop, ns, received, links, reading).0 != cur
    ensures exists k :: WonBy(self, d, ns, received, links, reading, RelaxEntry(self, d, cur, hop, ns, received, links, reading), k)
    decreases |ns|
  {
    var r := RelaxEntry(self, d, cur, hop, ns, received, links, reading);
    var n := ns[0];
    if n in received && Less(Candidate(self, n, d, received, links, reading), cur) {
      var c := Candidate(self, n, d, received, links, reading);
      var r' := RelaxEntry(self, d, c, Some(n), ns[1..], received, links, reading);
      assert r == r';
      if r'.0 == c {
        assert WonBy(self, d, ns, received, links, reading, r, 0);
      } else {
        RelaxEntryWinner(self, d, c, Some(n), ns[1..], received, links, reading);
        var k: nat :| WonBy(self, d, ns[1..], received, links, reading, r', k);
        WonByTail(self, d, ns, received, links, reading, r, k);
      }
    } else {
      var r' := RelaxEntry(self, d, cur, hop, ns[1..], received, links, reading);
      assert r == r';
      RelaxEntryWinner(self, d, cur, hop, ns[1..], received, links, reading);
      var k: nat :| WonBy(self, d, ns[1..], received, links, reading, r', k);
      WonByTail(self, d, ns, received, links, reading, r, k);
    }
  }

  function HopAt(nh: Hops, d: nat): Option<nat>
  {
    if d in nh then nh[d] else None
  }

  /**
    The whole vector and next-hop table after one relaxation call. The key
    sets are kept, the router's own entry is never touched, no entry grows,
    every entry ends at most every neighbour's candidate (the Bellman-Ford
    inequality), and an entry whose cost did not change keeps its next hop.
  */
  function RelaxVector(self: nat, dv: Vector, nh: Hops, ns: seq<nat>,
                       received: Received, links: LinkTable, reading: Reading): (r: (Vector, Hops))
    ensures r.0.Keys == dv.Keys && r.1.Keys == nh.Keys
    ensures self in dv ==> r.0[self] == dv[self]
    ensures forall d | d in dv :: AtMost(r.0[d], dv[d])
    ensures forall d, k | d in dv && d != self && 0 <= k < |ns| && ns[k] in received ::
              AtMost(r.0[d], Candidate(self, ns[k], d, received, links, reading))
    ensures forall d | d in nh && d in dv && r.0[d] == dv[d] :: r.1[d] == nh[d]
    ensures forall d | d in nh && (d !in dv || d == self) :: r.1[d] == nh[d]
  {
    (map d | d in dv :: if d == self then dv[d] else RelaxEntry(self, d, dv[d], HopAt(nh, d), ns, received, links, reading).0,
     map d | d in nh :: if d in dv && d != self then RelaxEntry(self, d, dv[d], HopAt(nh, d), ns, received, links, reading).1 else nh[d])
  }

  /**
    A lowered entry now routes through the first neighbour whose candidate
    achieves the new cost.
  */
  lemma RelaxVectorImproved(self: nat, dv: Vector, nh: Hops, ns: seq<nat>,
                            received: Received, links: LinkTable, reading: Reading, d: nat)
    requires d in dv && d in nh
    requires RelaxVector(self, dv, nh, ns, received, links, reading).0[d] != dv[d]
    ensures exists k :: 0 <= k < |ns| && ns[k] in received &&
              RelaxVector(self, dv, nh, ns, received, links, reading).0[d] == Candidate(self, ns[k], d, received, links, reading) &&
              RelaxVector(self, dv, nh, ns, received, links, reading).1[d] == Some(ns[k]) &&
              (forall j | 0 <= j < k && ns[j] in received ::
                 Less(RelaxVector(self, dv, nh, ns, received, links, reading).0[d], Candidate(self, ns[j], d, received, links, reading)))
  {
    RelaxEntryWinner(self, d, dv[d], HopAt(nh, d), ns, received, links, reading);
    var k: nat :| WonBy(self, d, ns, received, links, reading, RelaxEntry(self, d, dv[d], HopAt(nh, d), ns, received, links, reading), k);
  }

  /**
    A next-hop table agrees with its vector: every destination it lists has
    a cost, and it has no next hop exactly when its cost is infinite.
  */
  predicate HopsMatch(dv: Vector, nh: Hops)
  {
    forall d | d in nh :: d in dv && (nh[d].None? <==> dv[d] == Inf)
  }

  /**
    The relaxation keeps next hops and costs in agreement: a lowered entry
    is finite and gets a next hop, and an unchanged entry keeps its own.
  */
  lemma RelaxVectorHopsMatch(self: nat, dv: Vector, nh: Hops, ns: seq<nat>,
                             received: Received, links: LinkTable, reading: Reading)
    requires HopsMatch(dv, nh)
    ensures HopsMatch(RelaxVector(self, dv, nh, ns, received, links, reading).0,
                      RelaxVector(self, dv, nh, ns, received, links, reading).1)
  {
    var r := RelaxVector(self, dv, nh, ns, received, links, reading);
    forall d | d in r.1 ensures d in r.0 && (r.1[d].None? <==> r.0[d] == Inf) {
      if r.0[d] != dv[d] {
        RelaxVectorImproved(self, dv, nh, ns, received, links, reading, d);
        assert AtMost(r.0[d], dv[d]);
      }
    }
  }

  /**
    The vector changes exactly when some neighbour offers some destination a
    candidate strictly below its current entry: the condition under which
    updateDistanceVector / update_distance_vector report an update.
  */
  lemma RelaxVectorChangedIff(self: nat, dv: Vector, nh: Hops, ns: seq<nat>,
                              received: Received, links: LinkTable, reading: Reading)
    ensures RelaxVector(self, dv, nh, ns, received, links, reading).0 != dv <==>
            exists d, k :: d in dv && d != self && 0 <= k < |ns| && ns[k] in received &&
              Less(Candidate(self, ns[k], d, received, links, reading), dv[d])
  {
    var r := RelaxVector(self, dv, nh, ns, received, links, reading);
    if r.0 != dv {
      assert r.0.Keys == dv.Keys;
      var d :| d in dv && r.0[d] != dv[d];
      RelaxEntryWinner(self, d, dv[d], HopAt(nh, d), ns, received, links, reading);
      var k: nat :| WonBy(self, d, ns, received, links, reading, RelaxEntry(self, d, dv[d], HopAt(nh, d), ns, received, links, reading), k);
      assert Less(Candidate(self, ns[k], d, received, links, reading), dv[d]);
    }
  }
}
