/**
 * The in-place Fisher–Yates shuffle used to hide the goal pair (utility.tsx,
 * `shuffleArray`). The random choice of step i, `Math.floor(Math.random() * (i + 1))`,
 * is an explicit draw `js[i]` in [0, i].
 */
module Shuffle {
  import opened Sequences

  /** One draw per position: `js[i]` is the partner picked for position i. Position 0
      is never a step of the loop, so `js[0]` is forced to 0 and never read. */
  predicate ValidSwaps(js: seq<nat>, n: nat) {
    |js| == n && forall i | 0 <= i < n :: js[i] <= i
  }

  /** The destructuring swap `[array[i], array[j]] = [array[j], array[i]]`. */
  function Swap<T>(s: seq<T>, i: nat, j: nat): (r: seq<T>)
    requires i < |s| && j < |s|
    ensures |r| == |s|
    ensures r[i] == s[j] && r[j] == s[i]
    ensures forall k | 0 <= k < |s| && k != i && k != j :: r[k] == s[k]
  {
    s[i := s[j]][j := s[i]]
  }

  /** A swap only rearranges the elements. */
  lemma SwapIsPermutation<T>(s: seq<T>, i: nat, j: nat)
    requires i < |s| && j < |s|
    ensures multiset(Swap(s, i, j)) == multiset(s)
  {
  }

  /** The loop of `shuffleArray` from index `i` down to 1. */
  function ShuffleFrom<T>(s: seq<T>, js: seq<nat>, i: int): (r: seq<T>)
    requires ValidSwaps(js, |s|)
    requires i < |s|
    ensures |r| == |s|
    decreases i
  {
    if i <= 0 then s else ShuffleFrom(Swap(s, i, js[i]), js, i - 1)
  }

  /** Every prefix of the loop only rearranges the elements. */
  lemma {:induction false} ShuffleFromIsPermutation<T>(s: seq<T>, js: seq<nat>, i: int)
    requires ValidSwaps(js, |s|)
    requires i < |s|
    ensures multiset(ShuffleFrom(s, js, i)) == multiset(s)
    decreases i
  {
    if i > 0 {
      SwapIsPermutation(s, i, js[i]);
      ShuffleFromIsPermutation(Swap(s, i, js[i]), js, i - 1);
    }
  }

  /** Fisher–Yates fixes positions from the top down: once the loop is below
      position k, position k never changes again. */
  lemma {:induction false} ShuffleFromKeepsSuffix<T>(s: seq<T>, js: seq<nat>, i: int, k: int)
    requires ValidSwaps(js, |s|)
    requires 0 <= k < |s| && i < k
    ensures ShuffleFrom(s, js, i)[k] == s[k]
    decreases i
  {
    if i > 0 {
      ShuffleFromKeepsSuffix(Swap(s, i, js[i]), js, i - 1, k);
    }
  }

  /** The whole shuffle: steps i = |s| - 1, ..., 1. */
  function Shuffled<T>(s: seq<T>, js: seq<nat>): (r: seq<T>)
    requires ValidSwaps(js, |s|)
    ensures |r| == |s|
    ensures multiset(r) == multiset(s)
  {
    ShuffleFromIsPermutation(s, js, |s| - 1);
    ShuffleFrom(s, js, |s| - 1)
  }

  /** `shuffleArray` itself, permuting the array in place. */
  method ShuffleArray<T>(a: array<T>, js: seq<nat>)
    requires ValidSwaps(js, a.Length)
    modifies a
    ensures a[..] == Shuffled(old(a[..]), js)
    ensures multiset(a[..]) == multiset(old(a[..]))
  {
    ghost var original := a[..];
    var i := a.Length - 1;
    while i > 0
      invariant -1 <= i < a.Length
      invariant ShuffleFrom(a[..], js, i) == Shuffled(original, js)
      decreases i
    {
      var j := js[i];
      ghost var before := a[..];
      a[i], a[j] := a[j], a[i];
      assert a[..] == Swap(before, i, j);
      i := i - 1;
    }
    assert a[..] == ShuffleFrom(a[..], js, i);
  }

  /** Shuffling commutes with taking an image of every element: what the shuffle does
      to positions does not depend on the values stored there. */
  lemma {:induction false} MapShuffleFrom<T, U>(f: T -> U, s: seq<T>, js: seq<nat>, i: int)
    requires ValidSwaps(js, |s|)
    requires i < |s|
    ensures ShuffleFrom(Map(f, s), js, i) == Map(f, ShuffleFrom(s, js, i))
    decreases i
  {
    if i > 0 {
      var j := js[i];
      assert Map(f, Swap(s, i, j)) == Swap(Map(f, s), i, j);
      MapShuffleFrom(f, Swap(s, i, j), js, i - 1);
    }
  }

  /** Where each element ends up: position k of the shuffled sequence holds the
      element that started at `Placement(n, js)[k]`. */
  function Placement(n: nat, js: seq<nat>): (p: seq<nat>)
    requires ValidSwaps(js, n)
    ensures |p| == n
    ensures multiset(p) == multiset(Iota(n))
  {
    Shuffled(Iota(n), js)
  }

  /** Every original position occurs in the placement, and only those. */
  lemma PlacementIsPermutation(n: nat, js: seq<nat>)
    requires ValidSwaps(js, n)
    ensures forall k | 0 <= k < n :: Placement(n, js)[k] < n
    ensures forall m | 0 <= m < n :: m in Placement(n, js)
  {
    var p := Placement(n, js);
    var ids := Iota(n);
    forall k | 0 <= k < n
      ensures p[k] < n
    {
      assert p[k] in multiset(p);
      assert p[k] in ids;
    }
    forall m | 0 <= m < n
      ensures m in p
    {
      assert ids[m] == m;
      assert m in multiset(ids);
    }
  }

  /** The shuffle is the permutation `Placement` applied to its input. */
  lemma ShuffledFollowsPlacement<T>(s: seq<T>, js: seq<nat>)
    requires ValidSwaps(js, |s|)
    ensures forall k | 0 <= k < |s| ::
      Placement(|s|, js)[k] < |s| && Shuffled(s, js)[k] == s[Placement(|s|, js)[k]]
  {
    PlacementIsPermutation(|s|, js);
    if |s| > 0 {
      var f := (k: nat) => if k < |s| then s[k] else s[0];
      var p := Placement(|s|, js);
      assert Map(f, Iota(|s|)) == s;
      MapShuffleFrom(f, Iota(|s|), js, |s| - 1);
      assert Shuffled(s, js) == Map(f, p);
      forall k | 0 <= k < |s|
        ensures Shuffled(s, js)[k] == s[p[k]]
      {
        assert Map(f, p)[k] == f(p[k]);
      }
    }
  }
}
