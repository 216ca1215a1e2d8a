/**
  The link table. script.js keys a link by the string "from-to" and dvr.py by
  the tuple (from, to); both are the ordered pair here. A link is stored once,
  under the orientation it was created with, and looked up in both.
*/
module Links {
  import opened Costs

  type LinkTable = map<(nat, nat), int>

  /** There is a stored link between `a` and `b`, in either orientation. */
  predicate Linked(links: LinkTable, a: nat, b: nat)
  {
    (a, b) in links || (b, a) in links
  }

  /** getLinkCost / get_link_cost: the "a-b" entry first, then "b-a", else infinity. */
  function LinkCost(links: LinkTable, a: nat, b: nat): (c: Cost)
    ensures c.Fin? <==> Linked(links, a, b)
    ensures c.Fin? ==> c.value in links.Values
  {
    if (a, b) in links then Fin(links[(a, b)])
    else if (b, a) in links then Fin(links[(b, a)])
    else Inf
  }

  /**
    The lookup is symmetric whenever the two orientations do not disagree:
    in particular when at most one of them is stored, which script.js's
    addLink guarantees.
  */
  lemma LinkCostSymmetric(links: LinkTable, a: nat, b: nat)
    requires (a, b) in links && (b, a) in links ==> links[(a, b)] == links[(b, a)]
    ensures LinkCost(links, a, b) == LinkCost(links, b, a)
    ensures Linked(links, a, b) ==>
      LinkCost(links, a, b) == Fin(if (a, b) in links then links[(a, b)] else links[(b, a)])
  {
  }

  /**
    dvr.py reads links from the user without rejecting a pair entered in both
    orientations; the lookup is then asymmetric (each side sees its own entry).
  */
  lemma LinkCostBothOrientations(links: LinkTable, a: nat, b: nat)
    requires a != b && (a, b) in links && (b, a) in links
    ensures LinkCost(links, a, b) == Fin(links[(a, b)])
    ensures LinkCost(links, b, a) == Fin(links[(b, a)])
  {
  }
}
