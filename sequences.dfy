/** Order-preserving selection, the shape every `Array.prototype.filter` result has. */
module Sequences {

  /** `a` is `b` with some elements left out, in `b`'s order. */
  predicate IsSubsequence<T(==)>(a: seq<T>, b: seq<T>)
    decreases |b|
  {
    a == [] || (b != [] && ((a[0] == b[0] && IsSubsequence(a[1..], b[1..])) || IsSubsequence(a, b[1..])))
  }
}
