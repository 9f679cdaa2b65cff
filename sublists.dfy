/** Order-preserving selection, the relation between a JavaScript array and its `filter`. */
module Sublists {

  /** `a` is `b` with some elements dropped and the rest in their order. */
  predicate IsSublist<T(==)>(a: seq<T>, b: seq<T>)
    decreases |b|
  {
    if a == [] then true
    else if b == [] then false
    else (a[0] == b[0] && IsSublist(a[1..], b[1..])) || IsSublist(a, b[1..])
  }
}
