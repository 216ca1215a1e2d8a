/**
  Route costs. Both implementations use a floating-point infinity as the
  "unreachable" sentinel; here it is an explicit constructor, and finite costs
  are unbounded integers (the costs that occur are sums of a few small link
  costs, far below the range where a double loses integer precision).
*/
module Costs {

  datatype Cost = Fin(value: int) | Inf

  /** `a + b` on numbers extended with +Infinity. */
  function Add(a: Cost, b: Cost): Cost
  {
    if a.Fin? && b.Fin? then Fin(a.value + b.value) else Inf
  }

  /** The strict `<` of JavaScript and Python numbers: `Infinity < Infinity` is false. */
  predicate Less(a: Cost, b: Cost)
  {
    match (a, b)
    case (Fin(x), Fin(y)) => x < y
    case (Fin(_), Inf) => true
    case (Inf, _) => false
  }

  predicate AtMost(a: Cost, b: Cost)
  {
    !Less(b, a)
  }
}
