/**
  A worked run of the engine showing that routes through a deleted router
  outlive it. The line 1 - 2 - 3 - 4 with unit costs has converged; router 3
  is deleted and routers 2 and 4 are linked at a cost `w` above 4. One round
  moves router 2 onto the stale route to 4 through router 1, which still
  advertises cost 3 through the vanished router; nothing is then left to
  improve, and findPath from 1 to 4 walks 1, 2, 1 and reports a loop.
*/
module StaleRoutes {
  import opened Wrappers
  import opened Costs
  import opened Links
  import opened Relaxation
  import opened Topology
  import opened Engine
  import opened Paths
  import opened Descent

  function LineLinks(): LinkTable { map[(1, 2) := 1, (2, 3) := 1, (3, 4) := 1] }

  /** The converged tables of the line 1 - 2 - 3 - 4. */
  function LineTables(): RouterTable
  {
    map[1 := RouterState([2], map[1 := Fin(0), 2 := Fin(1), 3 := Fin(2), 4 := Fin(3)], map[2 := Some(2), 3 := Some(2), 4 := Some(2)], false),
        2 := RouterState([1, 3], map[1 := Fin(1), 2 := Fin(0), 3 := Fin(1), 4 := Fin(2)], map[1 := Some(1), 3 := Some(3), 4 := Some(3)], false),
        3 := RouterState([2, 4], map[1 := Fin(2), 2 := Fin(1), 3 := Fin(0), 4 := Fin(1)], map[1 := Some(2), 2 := Some(2), 4 := Some(4)], false),
        4 := RouterState([3], map[1 := Fin(3), 2 := Fin(2), 3 := Fin(1), 4 := Fin(0)], map[1 := Some(3), 2 := Some(3), 3 := Some(3)], false)]
  }

  /** The tables once router 3 is deleted: the entries that went through it stay. */
  function DeletedTables(): RouterTable
  {
    map[1 := RouterState([2], map[1 := Fin(0), 2 := Fin(1), 4 := Fin(3)], map[2 := Some(2), 4 := Some(2)], false),
        2 := RouterState([1], map[1 := Fin(1), 2 := Fin(0), 4 := Fin(2)], map[1 := Some(1), 4 := Some(3)], false),
        4 := RouterState([], map[1 := Fin(3), 2 := Fin(2), 4 := Fin(0)], map[1 := Some(3), 2 := Some(3)], false)]
  }

  function LinkedLinks(w: int): LinkTable { map[(1, 2) := 1, (2, 4) := w] }

  /** The tables once routers 2 and 4 are linked at cost `w`. */
  function LinkedTables(w: int): RouterTable
  {
    map[1 := RouterState([2], map[1 := Fin(0), 2 := Fin(1), 4 := Fin(3)], map[2 := Some(2), 4 := Some(2)], false),
        2 := RouterState([1, 4], map[1 := Fin(1), 2 := Fin(0), 4 := Fin(w)], map[1 := Some(1), 4 := Some(4)], false),
        4 := RouterState([2], map[1 := Fin(3), 2 := Fin(w), 4 := Fin(0)], map[1 := Some(3), 2 := Some(2)], false)]
  }

  /** The tables after one round: router 2 now reaches 4 through router 1 at cost 4. */
  function AfterTables(w: int): RouterTable
  {
    map[1 := RouterState([2], map[1 := Fin(0), 2 := Fin(1), 4 := Fin(3)], map[2 := Some(2), 4 := Some(2)], false),
        2 := RouterState([1, 4], map[1 := Fin(1), 2 := Fin(0), 4 := Fin(4)], map[1 := Some(1), 4 := Some(1)], true),
        4 := RouterState([2], map[1 := Fin(3), 2 := Fin(w), 4 := Fin(0)], map[1 := Some(3), 2 := Some(2)], false)]
  }

  /** A router none of whose candidates beats its current entry is stable. */
  lemma StableBy(t: RouterTable, links: LinkTable, r: nat, reading: Reading)
    requires r in t
    requires forall d, k | d in t[r].distanceVector && d != r && 0 <= k < |t[r].neighbors| && t[r].neighbors[k] in ReceivedVectors(t, r) ::
               !Less(Candidate(r, t[r].neighbors[k], d, ReceivedVectors(t, r), links, reading), t[r].distanceVector[d])
    ensures Stable(t, links, r, reading)
  {
    RelaxVectorChangedIff(r, t[r].distanceVector, t[r].nextHop, t[r].neighbors, ReceivedVectors(t, r), links, reading);
  }

  /** The same test, read straight off the neighbours' vectors. */
  lemma StableFrom(t: RouterTable, links: LinkTable, r: nat, reading: Reading)
    requires r in t
    requires forall n, d | n in t[r].neighbors && n in t && d in t[r].distanceVector && d != r ::
               !Less(Add(LinkCost(links, r, n), Offered(t[n].distanceVector, d, reading)), t[r].distanceVector[d])
    ensures Stable(t, links, r, reading)
  {
    StableBy(t, links, r, reading);
  }

  lemma Linked(w: int)
    ensures AddLinkOutcome(map[(1, 2) := 1], 2, 4) == Added
    ensures AddLinkSpec(DeletedTables(), 2, 4, w) == LinkedTables(w)
  {
    LinkedAt2(w); LinkedAt4(w);
    var t := AddLinkSpec(DeletedTables(), 2, 4, w);
    assert t.Keys == LinkedTables(w).Keys;
    assert t[1] == LinkedTables(w)[1];
  }

  lemma LinkedAt2(w: int)
    ensures Connect(DeletedTables()[2], 4, w) == LinkedTables(w)[2]
  {
    var e := DeletedTables()[2];
    assert e.distanceVector[4 := Fin(w)] == map[1 := Fin(1), 2 := Fin(0), 4 := Fin(w)];
    assert e.nextHop[4 := Some(4)] == map[1 := Some(1), 4 := Some(4)];
  }

  lemma LinkedAt4(w: int)
    ensures Connect(DeletedTables()[4], 2, w) == LinkedTables(w)[4]
  {
    var e := DeletedTables()[4];
    assert e.distanceVector[2 := Fin(w)] == map[1 := Fin(3), 2 := Fin(w), 4 := Fin(0)];
    assert e.nextHop[2 := Some(2)] == map[1 := Some(3), 2 := Some(2)];
  }

  lemma Cleared(w: int)
    ensures ClearFlags(LinkedTables(w)) == LinkedTables(w)
  {
    var t := ClearFlags(LinkedTables(w));
    assert t.Keys == LinkedTables(w).Keys;
  }

  lemma Stable1(w: int)
    requires w > 4
    ensures Stable(LinkedTables(w), LinkedLinks(w), 1, ZeroAsInfinity)
  {
    StableFrom(LinkedTables(w), LinkedLinks(w), 1, ZeroAsInfinity);
  }

  /** Relaxing one entry against two neighbours, given their candidates. */
  lemma RelaxTwo(self: nat, d: nat, cur: Cost, hop: Option<nat>, n1: nat, n2: nat,
                 received: Received, links: LinkTable, reading: Reading, c1: Cost, c2: Cost)
    requires n1 in received && n2 in received
    requires Candidate(self, n1, d, received, links, reading) == c1
    requires Candidate(self, n2, d, received, links, reading) == c2
    ensures RelaxEntry(self, d, cur, hop, [n1, n2], received, links, reading) ==
            if Less(c1, cur) then (if Less(c2, c1) then (c2, Some(n2)) else (c1, Some(n1)))
            else if Less(c2, cur) then (c2, Some(n2)) else (cur, hop)
  {
    var e := if Less(c1, cur) then (c1, Some(n1)) else (cur, hop);
    assert [n1, n2][1..] == [n2] && [n2][1..] == [];
    assert RelaxEntry(self, d, cur, hop, [n1, n2], received, links, reading) ==
           RelaxEntry(self, d, e.0, e.1, [n2], received, links, reading);
    assert RelaxEntry(self, d, e.0, e.1, [n2], received, links, reading) ==
           RelaxEntry(self, d, if Less(c2, e.0) then c2 else e.0, if Less(c2, e.0) then Some(n2) else e.1, [], received, links, reading);
  }

  lemma Relax2To4(w: int)
    requires w > 4
    ensures RelaxEntry(2, 4, Fin(w), Some(4), [1, 4], ReceivedVectors(LinkedTables(w), 2), LinkedLinks(w), ZeroAsInfinity) == (Fin(4), Some(1))
  {
    var t := LinkedTables(w);
    var l := LinkedLinks(w);
    var rv := ReceivedVectors(t, 2);
    assert 1 in rv && rv[1] == t[1].distanceVector && 4 in rv && rv[4] == t[4].distanceVector;
    RelaxTwo(2, 4, Fin(w), Some(4), 1, 4, rv, l, ZeroAsInfinity, Fin(4), Inf);
  }

  lemma Relax2To1(w: int)
    requires w > 4
    ensures RelaxEntry(2, 1, Fin(1), Some(1), [1, 4], ReceivedVectors(LinkedTables(w), 2), LinkedLinks(w), ZeroAsInfinity) == (Fin(1), Some(1))
  {
    var t := LinkedTables(w);
    var l := LinkedLinks(w);
    var rv := ReceivedVectors(t, 2);
    assert 1 in rv && rv[1] == t[1].distanceVector && 4 in rv && rv[4] == t[4].distanceVector;
    RelaxTwo(2, 1, Fin(1), Some(1), 1, 4, rv, l, ZeroAsInfinity, Inf, Fin(w + 3));
  }

  lemma Relaxed2(w: int)
    requires w > 4
    ensures Relaxed(LinkedTables(w), LinkedLinks(w), 2, ZeroAsInfinity) ==
            (map[1 := Fin(1), 2 := Fin(0), 4 := Fin(4)], map[1 := Some(1), 4 := Some(1)])
  {
    var v := Relaxed(LinkedTables(w), LinkedLinks(w), 2, ZeroAsInfinity);
    Relaxed2Entries(w);
    Triple(v.0, 1, 2, 4, Fin(1), Fin(0), Fin(4));
    Pair(v.1, 1, 4, Some(1), Some(1));
  }

  lemma Relaxed2Entries(w: int)
    requires w > 4
    ensures var v := Relaxed(LinkedTables(w), LinkedLinks(w), 2, ZeroAsInfinity);
            v.0.Keys == {1, 2, 4} && v.1.Keys == {1, 4} &&
            v.0[1] == Fin(1) && v.0[2] == Fin(0) && v.0[4] == Fin(4) && v.1[1] == Some(1) && v.1[4] == Some(1)
  {
    Relax2To4(w); Relax2To1(w);
    var t := LinkedTables(w);
    assert HopAt(t[2].nextHop, 1) == Some(1) && HopAt(t[2].nextHop, 4) == Some(4);
  }

  lemma Triple<V>(m: map<nat, V>, a: nat, b: nat, c: nat, x: V, y: V, z: V)
    requires m.Keys == {a, b, c} && m[a] == x && m[b] == y && m[c] == z
    ensures m == map[a := x, b := y, c := z]
  {
  }

  lemma Pair<V>(m: map<nat, V>, a: nat, b: nat, x: V, y: V)
    requires m.Keys == {a, b} && m[a] == x && m[b] == y
    ensures m == map[a := x, b := y]
  {
  }

  lemma Improve2(w: int)
    requires w > 4
    ensures ProcessRouter(LinkedTables(w), LinkedLinks(w), 2, ZeroAsInfinity) == AfterTables(w)
  {
    Relaxed2(w);
    var t := ProcessRouter(LinkedTables(w), LinkedLinks(w), 2, ZeroAsInfinity);
    assert map[1 := Fin(1), 2 := Fin(0), 4 := Fin(4)] != LinkedTables(w)[2].distanceVector by {
      assert LinkedTables(w)[2].distanceVector[4] == Fin(w);
    }
    Triple(t, 1, 2, 4, AfterTables(w)[1], AfterTables(w)[2], AfterTables(w)[4]);
  }

  lemma After1(w: int)
    requires w > 4
    ensures Stable(AfterTables(w), LinkedLinks(w), 1, ZeroAsInfinity)
  {
    StableFrom(AfterTables(w), LinkedLinks(w), 1, ZeroAsInfinity);
  }

  lemma After2(w: int)
    requires w > 4
    ensures Stable(AfterTables(w), LinkedLinks(w), 2, ZeroAsInfinity)
  {
    StableFrom(AfterTables(w), LinkedLinks(w), 2, ZeroAsInfinity);
  }

  lemma After4(w: int)
    requires w > 4
    ensures Stable(AfterTables(w), LinkedLinks(w), 4, ZeroAsInfinity)
  {
    StableFrom(AfterTables(w), LinkedLinks(w), 4, ZeroAsInfinity);
  }

  lemma FixedOf3(t: RouterTable, links: LinkTable, reading: Reading, a: nat, b: nat, c: nat)
    requires t.Keys == {a, b, c}
    requires Stable(t, links, a, reading) && Stable(t, links, b, reading) && Stable(t, links, c, reading)
    ensures FixedPoint(t, links, reading)
  {
  }

  lemma AfterFixed(w: int)
    requires w > 4
    ensures FixedPoint(AfterTables(w), LinkedLinks(w), ZeroAsInfinity)
  {
    forall r | r in AfterTables(w)
      ensures Stable(AfterTables(w), LinkedLinks(w), r, ZeroAsInfinity)
    {
      if r == 1 {
        After1(w);
      } else if r == 2 {
        After2(w);
      } else {
        After4(w);
      }
    }
  }

  lemma Round(w: int)
    requires w > 4
    ensures RunRound(ClearFlags(LinkedTables(w)), LinkedLinks(w), [1, 2, 4], ZeroAsInfinity) == AfterTables(w)
  {
    var t := LinkedTables(w);
    var l := LinkedLinks(w);
    Cleared(w); Stable1(w); Improve2(w); After4(w);
    ProcessStable(t, l, 1, ZeroAsInfinity);
    ProcessStable(AfterTables(w), l, 4, ZeroAsInfinity);
    RoundOfOne(t, l, 1, t, ZeroAsInfinity);
    RoundOfTwo(t, l, 1, 2, t, AfterTables(w), ZeroAsInfinity);
    RoundOfThree(t, l, 1, 2, 4, AfterTables(w), AfterTables(w), ZeroAsInfinity);
  }

  lemma RoundOfOne(t: RouterTable, links: LinkTable, a: nat, r: RouterTable, reading: Reading)
    requires a in t && ProcessRouter(t, links, a, reading) == r
    ensures RunRound(t, links, [a], reading) == r
  {
    assert [a][..0] == [];
  }

  lemma RoundOfTwo(t: RouterTable, links: LinkTable, a: nat, b: nat, s: RouterTable, r: RouterTable, reading: Reading)
    requires a in t && b in t && RunRound(t, links, [a], reading) == s
    requires b in s && ProcessRouter(s, links, b, reading) == r
    ensures RunRound(t, links, [a, b], reading) == r
  {
    RoundStep(t, links, [a], b, s, r, reading);
    assert [a] + [b] == [a, b];
  }

  lemma RoundOfThree(t: RouterTable, links: LinkTable, a: nat, b: nat, c: nat, s: RouterTable, r: RouterTable, reading: Reading)
    requires a in t && b in t && c in t && RunRound(t, links, [a, b], reading) == s
    requires c in s && ProcessRouter(s, links, c, reading) == r
    ensures RunRound(t, links, [a, b, c], reading) == r
  {
    RoundStep(t, links, [a, b], c, s, r, reading);
    assert [a, b] + [c] == [a, b, c];
  }

  /** Extending a round by one router processes that router last. */
  lemma RoundStep(t: RouterTable, links: LinkTable, ids: seq<nat>, i: nat, s: RouterTable, r: RouterTable, reading: Reading)
    requires forall j | j in ids :: j in t
    requires RunRound(t, links, ids, reading) == s
    requires i in s && ProcessRouter(s, links, i, reading) == r
    ensures RunRound(t, links, ids + [i], reading) == r
  {
    assert (ids + [i])[..|ids|] == ids;
  }

  lemma AfterLoop(w: int)
    ensures FindPathSpec(AfterTables(w), true, 1, 4) == Failed(LoopDetected)
  {
    var t := AfterTables(w);
    assert t.Keys == {1, 2, 4};
    assert |t| == 3;
    assert Walk(t, 4, [1, 2, 1], 3) == Failure(LoopDetected);
    assert Walk(t, 4, [1, 2], 3) == Walk(t, 4, [1, 2] + [1], 3);
    assert Walk(t, 4, [1], 3) == Walk(t, 4, [1] + [2], 3);
    assert HopToward(t, 1, 4) == Some(2) && t[1].distanceVector[4] == Fin(3);
    assert Walk(t, 4, [1], |t|) == Failure(LoopDetected);
  }

  lemma LineConverged()
    ensures FixedPoint(LineTables(), LineLinks(), ZeroAsInfinity)
  {
    LineStable1(); LineStable2(); LineStable3(); LineStable4();
  }

  lemma LineStable1()
    ensures Stable(LineTables(), LineLinks(), 1, ZeroAsInfinity)
  {
    StableFrom(LineTables(), LineLinks(), 1, ZeroAsInfinity);
  }

  lemma LineStable2()
    ensures Stable(LineTables(), LineLinks(), 2, ZeroAsInfinity)
  {
    StableFrom(LineTables(), LineLinks(), 2, ZeroAsInfinity);
  }

  lemma LineStable3()
    ensures Stable(LineTables(), LineLinks(), 3, ZeroAsInfinity)
  {
    StableFrom(LineTables(), LineLinks(), 3, ZeroAsInfinity);
  }

  lemma LineStable4()
    ensures Stable(LineTables(), LineLinks(), 4, ZeroAsInfinity)
  {
    StableFrom(LineTables(), LineLinks(), 4, ZeroAsInfinity);
  }

  lemma Deleted()
    ensures DeleteRouterSpec(LineTables(), 3) == DeletedTables()
  {
    DeletedAt1(); DeletedAt2(); DeletedAt4(); DeletedKeys();
    Triple(DeleteRouterSpec(LineTables(), 3), 1, 2, 4, DeletedTables()[1], DeletedTables()[2], DeletedTables()[4]);
  }

  lemma DeletedLinks()
    ensures DeleteLinks(LineLinks(), 3) == map[(1, 2) := 1]
  {
    assert DeleteLinks(LineLinks(), 3).Keys == {(1, 2)};
  }

  lemma DeletedKeys()
    ensures DeleteRouterSpec(LineTables(), 3).Keys == {1, 2, 4}
  {
    assert LineTables().Keys == {1, 2, 3, 4};
  }

  lemma DeletedAt1()
    ensures 1 in DeleteRouterSpec(LineTables(), 3) && DeleteRouterSpec(LineTables(), 3)[1] == DeletedTables()[1]
  {
    var e := LineTables()[1];
    assert Without(e.neighbors, 3) == [2];
    assert e.distanceVector - {3} == map[1 := Fin(0), 2 := Fin(1), 4 := Fin(3)];
    assert e.nextHop - {3} == map[2 := Some(2), 4 := Some(2)];
  }

  lemma DeletedAt2()
    ensures 2 in DeleteRouterSpec(LineTables(), 3) && DeleteRouterSpec(LineTables(), 3)[2] == DeletedTables()[2]
  {
    var e := LineTables()[2];
    assert [1, 3][1..] == [3];
    assert Without(e.neighbors, 3) == [1];
    assert e.distanceVector - {3} == map[1 := Fin(1), 2 := Fin(0), 4 := Fin(2)];
    assert e.nextHop - {3} == map[1 := Some(1), 4 := Some(3)];
  }

  lemma DeletedAt4()
    ensures 4 in DeleteRouterSpec(LineTables(), 3) && DeleteRouterSpec(LineTables(), 3)[4] == DeletedTables()[4]
  {
    var e := LineTables()[4];
    assert Without(e.neighbors, 3) == [];
    assert e.distanceVector - {3} == map[1 := Fin(3), 2 := Fin(2), 4 := Fin(0)];
    assert e.nextHop - {3} == map[1 := Some(3), 2 := Some(3)];
  }

  /**
    The whole run: from the converged line, deleting router 3 and linking 2
    and 4 at any cost above 4 leads in one round to tables that no router
    would change, on which findPath from 1 to 4 reports a loop.
  */
  lemma StaleRouteLoop(w: int)
    requires w > 4
    ensures FixedPoint(LineTables(), LineLinks(), ZeroAsInfinity)
    ensures DeleteRouterSpec(LineTables(), 3) == DeletedTables()
    ensures DeleteLinks(LineLinks(), 3) == map[(1, 2) := 1]
    ensures AddLinkOutcome(map[(1, 2) := 1], 2, 4) == Added
    ensures AddLinkSpec(DeletedTables(), 2, 4, w) == LinkedTables(w)
    ensures map[(1, 2) := 1][(2, 4) := w] == LinkedLinks(w)
    ensures RunRound(ClearFlags(LinkedTables(w)), LinkedLinks(w), [1, 2, 4], ZeroAsInfinity) == AfterTables(w)
    ensures FixedPoint(AfterTables(w), LinkedLinks(w), ZeroAsInfinity)
    ensures FindPathSpec(AfterTables(w), true, 1, 4) == Failed(LoopDetected)
  {
    LineConverged();
    Deleted();
    DeletedLinks();
    Linked(w);
    Round(w);
    AfterFixed(w);
    AfterLoop(w);
  }

  /** The converged line keeps the descent invariant; deleting router 3 leaves router 2 pointing at it for 4. */
  lemma DeleteBreaksDescent()
    ensures Descends(LineTables())
    ensures !Descends(DeletedTables())
  {
    LineDescends();
    assert HopToward(DeletedTables(), 2, 4) == Some(3);
    assert !HopDescends(DeletedTables(), 2, 4);
  }

  lemma LineDescends()
    ensures Descends(LineTables())
  {
    var t := LineTables();
    forall r: nat, d: nat | r in t ensures HopDescends(t, r, d) {
      assert r == 1 || r == 2 || r == 3 || r == 4;
    }
  }
}
