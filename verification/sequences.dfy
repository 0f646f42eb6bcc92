/** Small sequence helpers shared by the level model, the shuffle and the generator. */
module Sequences {

  /** Element-wise image of a sequence, the `Array.prototype.map` of the app. */
  function Map<T, U>(f: T -> U, s: seq<T>): (r: seq<U>)
    ensures |r| == |s|
    ensures forall k | 0 <= k < |s| :: r[k] == f(s[k])
  {
    seq(|s|, k requires 0 <= k < |s| => f(s[k]))
  }

  /** The identity arrangement 0, 1, ..., n - 1. */
  function Iota(n: nat): (r: seq<nat>)
    ensures |r| == n
    ensures forall k | 0 <= k < n :: r[k] == k
  {
    seq(n, k requires 0 <= k < n => k as nat)
  }

  /** The first position at which `x` occurs in `s`. */
  function IndexOf<T(==)>(s: seq<T>, x: T): (i: nat)
    requires x in s
    ensures i < |s| && s[i] == x
    ensures forall k | 0 <= k < i :: s[k] != x
  {
    if s[0] == x then 0 else 1 + IndexOf(s[1..], x)
  }
}
