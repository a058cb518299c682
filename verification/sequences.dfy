/** Sequence helpers shared by the service model: a linear membership scan
    and the subsequence relation used to state order preservation. */
module Sequences {

  /** A left-to-right scan with exact equality, as `Array.prototype.includes`
      performs it on an array of strings. */
  function Includes<T(==)>(xs: seq<T>, x: T): (found: bool)
    ensures found <==> x in xs
  {
    if |xs| == 0 then false
    else if xs[0] == x then true
    else Includes(xs[1..], x)
  }

  /** `a` is obtained from `b` by deleting elements, keeping the rest in order. */
  ghost predicate IsSubsequence<T>(a: seq<T>, b: seq<T>)
    decreases |b|
  {
    || |a| == 0
    || (&& |b| > 0
        && (|| (a[0] == b[0] && IsSubsequence(a[1..], b[1..]))
            || IsSubsequence(a, b[1..])))
  }
}
