/** numpy's basic slicing with a step, `a[::k]`, on sequences. */
module Slicing {

  function Reverse<T>(xs: seq<T>): (r: seq<T>)
    ensures |r| == |xs| && forall j :: 0 <= j < |xs| ==> r[j] == xs[|xs| - 1 - j]
  {
    if xs == [] then [] else [xs[|xs| - 1]] + Reverse(xs[..|xs| - 1])
  }

  /** j steps of k from 0: j * k, written without a product so that the solver stays linear. */
  function Offset(j: nat, k: nat): nat
  {
    if j == 0 then 0 else Offset(j - 1, k) + k
  }

  lemma {:induction false} OffsetIsProduct(j: nat, k: nat)
    ensures Offset(j, k) == j * k
  {
    if j > 0 {
      OffsetIsProduct(j - 1, k);
    }
  }

  /** The elements at 0, k, 2k, ... for k > 0. */
  function EveryKth<T>(xs: seq<T>, k: nat): seq<T>
    requires k > 0
    decreases |xs|
  {
    if xs == [] then []
    else if |xs| <= k then [xs[0]]
    else [xs[0]] + EveryKth(xs[k..], k)
  }

  /** `a[::k]`: from the start forward when k > 0, from the end backward when k < 0. */
  function Decimate<T>(xs: seq<T>, k: int): seq<T>
    requires k != 0
  {
    if k > 0 then EveryKth(xs, k) else EveryKth(Reverse(xs), -k)
  }

  /** Element j of `EveryKth(xs, k)` is element j steps of k into `xs`; there are ceil(|xs| / k) of them. */
  lemma {:induction false} EveryKthAt<T>(xs: seq<T>, k: nat)
    requires k > 0
    ensures var r := EveryKth(xs, k);
      && (xs == [] ==> r == [])
      && (xs != [] ==> |r| > 0 && Offset(|r| - 1, k) < |xs| <= Offset(|r|, k))
      && forall j {:trigger r[j]} :: 0 <= j < |r| ==> Offset(j, k) < |xs| && r[j] == xs[Offset(j, k)]
    decreases |xs|
  {
    if |xs| > k {
      var tail := xs[k..];
      EveryKthAt(tail, k);
      var rest := EveryKth(tail, k);
      var r := EveryKth(xs, k);
      assert r == [xs[0]] + rest;
      assert Offset(|r|, k) == Offset(|rest|, k) + k;
      assert Offset(|r| - 1, k) == Offset(|rest| - 1, k) + k by {
        if |rest| > 1 { assert Offset(|rest| - 1, k) == Offset(|rest| - 2, k) + k; }
      }
      forall j | 0 <= j < |r|
        ensures Offset(j, k) < |xs| && r[j] == xs[Offset(j, k)]
      {
        if j > 0 {
          assert Offset(j, k) == Offset(j - 1, k) + k;
          assert r[j] == rest[j - 1] == tail[Offset(j - 1, k)];
        }
      }
    }
  }

  /** The elements at 0, k, 2k, ...: ceil(n / k) of them. */
  lemma EveryKthForward<T>(xs: seq<T>, k: nat)
    requires k > 0
    ensures var r := EveryKth(xs, k);
      && (xs != [] ==> (|r| - 1) * k < |xs| <= |r| * k)
      && forall j :: 0 <= j < |r| ==> j * k < |xs| && r[j] == xs[j * k]
  {
    EveryKthAt(xs, k);
    var r := EveryKth(xs, k);
    if xs != [] {
      var n := |r|;
      OffsetIsProduct(n, k);
      OffsetIsProduct(n - 1, k);
    }
    forall j | 0 <= j < |r|
      ensures j * k < |xs| && r[j] == xs[j * k]
    {
      OffsetIsProduct(j, k);
    }
  }

  /** `a[::k]` for k > 0 keeps the elements at 0, k, 2k, ..., ceil(n / k) of them. */
  lemma DecimateForward<T>(xs: seq<T>, k: int)
    requires k > 0
    ensures var r := Decimate(xs, k);
      && (xs != [] ==> (|r| - 1) * k < |xs| <= |r| * k)
      && forall j :: 0 <= j < |r| ==> j * k < |xs| && r[j] == xs[j * k]
  {
    assert Decimate(xs, k) == EveryKth(xs, k);
    EveryKthForward(xs, k);
  }

  /** `a[::k]` for k < 0 keeps the last element, then every |k|-th one going backwards. */
  lemma DecimateBackward<T>(xs: seq<T>, k: int)
    requires k < 0
    ensures var r, m := Decimate(xs, k), -k;
      && (xs != [] ==> (|r| - 1) * m < |xs| <= |r| * m)
      && forall j :: 0 <= j < |r| ==> j * m < |xs| && r[j] == xs[|xs| - 1 - j * m]
  {
    var ys, m := Reverse(xs), -k;
    var r := EveryKth(ys, m);
    assert Decimate(xs, k) == r;
    EveryKthForward(ys, m);
    forall j | 0 <= j < |r|
      ensures j * m < |xs| && r[j] == xs[|xs| - 1 - j * m]
    {
      assert r[j] == ys[j * m];
    }
  }

  lemma {:induction false} EveryKthOne<T>(xs: seq<T>)
    ensures EveryKth(xs, 1) == xs
    decreases |xs|
  {
    if |xs| > 1 {
      EveryKthOne(xs[1..]);
      assert xs == [xs[0]] + xs[1..];
    }
  }

  /** A step of 1 keeps every point; a step of -1 reverses them. */
  lemma DecimateUnit<T>(xs: seq<T>)
    ensures Decimate(xs, 1) == xs
    ensures Decimate(xs, -1) == Reverse(xs)
  {
    EveryKthOne(xs);
    EveryKthOne(Reverse(xs));
  }

  /** Five elements with step 2 keep elements 0, 2 and 4; with step -2, elements 4, 2 and 0. */
  lemma StepTwoOfFive<T>(a: T, b: T, c: T, d: T, e: T)
    ensures Decimate([a, b, c, d, e], 2) == [a, c, e]
    ensures Decimate([a, b, c, d, e], -2) == [e, c, a]
    ensures Decimate([a, b, c, d, e], 7) == [a]
  {
    assert [a, b, c, d, e][2..] == [c, d, e] && [c, d, e][2..] == [e];
    assert EveryKth([c, d, e], 2) == [c] + EveryKth([e], 2) == [c, e];
    assert Reverse([a, b, c, d, e]) == [e, d, c, b, a];
    assert [e, d, c, b, a][2..] == [c, b, a] && [c, b, a][2..] == [a];
    assert EveryKth([c, b, a], 2) == [c] + EveryKth([a], 2) == [c, a];
  }
}
