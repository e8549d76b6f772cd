/** Sequence helpers shared by the migrators. */
module Sequences {

  /** The elements of `s` from last to first: the order Python's
      `reversed(s)` visits them in. */
  function Reversed<T>(s: seq<T>): (r: seq<T>)
    ensures |r| == |s|
    ensures forall i :: 0 <= i < |s| ==> r[i] == s[|s| - 1 - i]
  {
    if s == [] then [] else [s[|s| - 1]] + Reversed(s[..|s| - 1])
  }
}
