/** Reductions over real sequences that the lookup code takes from Python and numpy:
    min(), max(), np.argmax, and the pairing of two equally long arrays. */
module Seqs {

  predicate StrictlyIncreasing(s: seq<real>)
  {
    forall i, j :: 0 <= i < j < |s| ==> s[i] < s[j]
  }

  /** Python's min() over a non-empty sequence. */
  function Min(s: seq<real>): (m: real)
    requires |s| > 0
    ensures m in s
    ensures forall i :: 0 <= i < |s| ==> m <= s[i]
  {
    if |s| == 1 then s[0]
    else
      var rest := Min(s[1..]);
      if s[0] <= rest then s[0] else rest
  }

  /** Python's max() over a non-empty sequence. */
  function Max(s: seq<real>): (m: real)
    requires |s| > 0
    ensures m in s
    ensures forall i :: 0 <= i < |s| ==> s[i] <= m
  {
    if |s| == 1 then s[0]
    else
      var rest := Max(s[1..]);
      if s[0] >= rest then s[0] else rest
  }

  /** np.argmax: the FIRST index at which the maximum occurs. */
  function ArgMax(s: seq<real>): (k: nat)
    requires |s| > 0
    ensures k < |s|
    ensures forall i :: 0 <= i < |s| ==> s[i] <= s[k]
    ensures forall i :: 0 <= i < k ==> s[i] < s[k]
  {
    if |s| == 1 then 0
    else
      var k := ArgMax(s[1..]);
      if s[0] >= s[k + 1] then 0 else k + 1
  }

  /** A member that bounds every element is the maximum. */
  lemma MaxIs(s: seq<real>, k: nat)
    requires k < |s| && forall i :: 0 <= i < |s| ==> s[i] <= s[k]
    ensures Max(s) == s[k]
  {
  }

  /** An index of the maximum with no maximum before it is the argmax. */
  lemma ArgMaxIs(s: seq<real>, k: nat)
    requires k < |s| && forall i :: 0 <= i < |s| ==> s[i] <= s[k]
    requires forall i :: 0 <= i < k ==> s[i] < s[k]
    ensures ArgMax(s) == k
  {
    var a := ArgMax(s);
    assert s[a] <= s[k] && s[k] <= s[a];
  }

  lemma ArgMaxIsMax(s: seq<real>)
    requires |s| > 0
    ensures s[ArgMax(s)] == Max(s)
  {
  }

  /** On a strictly increasing axis, min() and max() are the end points. */
  lemma IncreasingBounds(s: seq<real>)
    requires |s| > 0 && StrictlyIncreasing(s)
    ensures Min(s) == s[0] && Max(s) == s[|s| - 1]
  {
  }

  /** The (x, y) pairs handed to a 1-D interpolator. */
  function Zip(xs: seq<real>, ys: seq<real>): (z: seq<(real, real)>)
    requires |xs| == |ys|
    ensures |z| == |xs|
    ensures forall i :: 0 <= i < |z| ==> z[i].0 == xs[i] && z[i].1 == ys[i]
  {
    seq(|xs|, i requires 0 <= i < |xs| => (xs[i], ys[i]))
  }

  /** Slicing both arrays with the same bounds slices the pairs. */
  lemma ZipSlice(xs: seq<real>, ys: seq<real>, lo: nat, hi: nat)
    requires |xs| == |ys| && lo <= hi <= |xs|
    ensures Zip(xs[lo..hi], ys[lo..hi]) == Zip(xs, ys)[lo..hi]
  {
  }
}
