/** Reversed sequences. */
module Sequences {
  /** A sequence from back to front. */
  function Reverse<V>(s: seq<V>): (r: seq<V>)
    ensures |r| == |s| && forall i :: 0 <= i < |s| ==> r[i] == s[|s| - 1 - i]
  {
    seq(|s|, i requires 0 <= i < |s| => s[|s| - 1 - i])
  }
}
