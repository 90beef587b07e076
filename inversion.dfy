/** Ratio inversion at one (l, vds, vsb) point (_look_up_vs_ratio): evaluate the ratio
    and the wanted quantity along the VGS axis, check that the targets are reachable,
    optionally keep only the part of the curve left or right of its peak, and
    interpolate the wanted quantity at the targets. */
module Inversion {
  import opened Results
  import opened Seqs
  import opened Names
  import opened Device
  import opened Forward

  /** A 1-D interpolator built from (x, y) samples, queried at one x (scipy's interp1d). */
  type Interp1 = (seq<(real, real)>, real) -> real

  /** np.squeeze of a (1, n, 1, 1) lookup result, for n other than 1: the n values along VGS. */
  function VgsRow(x: Tensor4<real>, n: nat): (row: seq<real>)
    requires Shape4(x, 1, n, 1, 1)
    ensures |row| == n
    ensures forall j :: 0 <= j < n ==> row[j] == x[0][j][0][0]
  {
    seq(n, j requires 0 <= j < n => x[0][j][0][0])
  }

  /** The curve of a quantity along a VGS sweep at fixed (l, vds, vsb). */
  function Along(f: Point -> real, vgs: seq<real>, l: real, vds: real, vsb: real): (row: seq<real>)
    ensures |row| == |vgs|
    ensures forall j :: 0 <= j < |vgs| ==> row[j] == f(Point(l, vgs[j], vds, vsb))
  {
    seq(|vgs|, j requires 0 <= j < |vgs| => f(Point(l, vgs[j], vds, vsb)))
  }

  /** A lookup at fixed (l, vds, vsb) over a VGS sweep fails exactly when the name does
      not resolve, with the same error; otherwise it has shape (1, |vgs|, 1, 1) and,
      squeezed, is the quantity's curve along VGS. */
  lemma SweepIsCurve(t: DeviceTable, name: string, vgs: seq<real>, l: real, vds: real, vsb: real)
    requires Valid(t) && RatioDefined(t, name)
    ensures LookUpBasicSpec(t, name, NdArray(vgs), Number(vds), Number(vsb), Number(l)).Ok? <==> Resolve(t, name).Ok?
    ensures Resolve(t, name).Err? ==>
      LookUpBasicSpec(t, name, NdArray(vgs), Number(vds), Number(vsb), Number(l)) == Err(Resolve(t, name).error)
    ensures Resolve(t, name).Ok? ==>
      var x := LookUpBasicSpec(t, name, NdArray(vgs), Number(vds), Number(vsb), Number(l)).value;
      Shape4(x, 1, |vgs|, 1, 1) && VgsRow(x, |vgs|) == Along(Resolve(t, name).value, vgs, l, vds, vsb)
  {
    var g := Grid([l], vgs, [vds], [vsb]);
    assert LookUpBasicSpec(t, name, NdArray(vgs), Number(vds), Number(vsb), Number(l)) == Evaluate(t, name, g);
    GridCells([l], vgs, [vds], [vsb]);
    EvaluateAgrees(t, name, g, 1, |vgs|, 1, 1);
    if Resolve(t, name).Ok? {
      var x := Evaluate(t, name, g).value;
      var f := Resolve(t, name).value;
      forall j | 0 <= j < |vgs| ensures VgsRow(x, |vgs|)[j] == Along(f, vgs, l, vds, vsb)[j] {
        assert InBox(1, |vgs|, 1, 1, 0, j, 0, 0);
      }
      assert VgsRow(x, |vgs|) == Along(f, vgs, l, vds, vsb);
    }
  }

  /** _look_up_vs_ratio, reachability check: the targets are reachable unless the smallest is below the curve's
      minimum or the largest above its maximum. */
  predicate Feasible(targets: seq<real>, xCalc: seq<real>): (ok: bool)
    requires |targets| > 0 && |xCalc| > 0
    ensures ok <==> forall i :: 0 <= i < |targets| ==> Min(xCalc) <= targets[i] <= Max(xCalc)
  {
    !(Min(targets) < Min(xCalc) || Max(targets) > Max(xCalc))
  }

  /** _look_up_vs_ratio, lim_left branch: keep the prefix of both arrays up to and including the first peak. */
  function LimitLeft(xs: seq<real>, ys: seq<real>): (r: (seq<real>, seq<real>))
    requires |xs| == |ys| && |xs| > 0
    ensures |r.0| == |r.1| == ArgMax(xs) + 1
    ensures r.0 == xs[..|r.0|] && r.1 == ys[..|r.1|]
    ensures r.0[|r.0| - 1] == Max(xs)
    ensures forall i :: 0 <= i < |r.0| - 1 ==> r.0[i] < Max(xs)
  {
    var k := ArgMax(xs);
    ArgMaxIsMax(xs);
    (xs[..k + 1], ys[..k + 1])
  }

  /** _look_up_vs_ratio, lim_right branch: keep the suffix of both arrays from the first peak on. */
  function LimitRight(xs: seq<real>, ys: seq<real>): (r: (seq<real>, seq<real>))
    requires |xs| == |ys| && |xs| > 0
    ensures |r.0| == |r.1| == |xs| - ArgMax(xs) >= 1
    ensures r.0 == xs[ArgMax(xs)..] && r.1 == ys[ArgMax(xs)..]
    ensures r.0[0] == Max(xs)
    ensures forall i :: 0 <= i < |r.0| ==> r.0[i] <= r.0[0]
    ensures forall i :: 0 <= i < |xs| - |r.0| ==> xs[i] < Max(xs)
  {
    var k := ArgMax(xs);
    ArgMaxIsMax(xs);
    (xs[k..], ys[k..])
  }

  /** The branch restriction as the code applies it: first lim_left, then lim_right. */
  function Branch(xs: seq<real>, ys: seq<real>, limLeft: bool, limRight: bool): (r: (seq<real>, seq<real>))
    requires |xs| == |ys| && |xs| > 0
    ensures |r.0| == |r.1| > 0
  {
    var first := if limLeft then LimitLeft(xs, ys) else (xs, ys);
    if limRight then LimitRight(first.0, first.1) else first
  }

  /** Both arrays are cut by the same index range, so the (x, y) pairs stay aligned. */
  lemma BranchIsSlice(xs: seq<real>, ys: seq<real>, limLeft: bool, limRight: bool)
    requires |xs| == |ys| && |xs| > 0
    ensures exists lo, hi :: (0 <= lo < hi <= |xs| &&
      Branch(xs, ys, limLeft, limRight) == (xs[lo..hi], ys[lo..hi]) &&
      Zip(Branch(xs, ys, limLeft, limRight).0, Branch(xs, ys, limLeft, limRight).1) == Zip(xs, ys)[lo..hi])
  {
    var hi := if limLeft then ArgMax(xs) + 1 else |xs|;
    assert xs[0..|xs|] == xs && ys[0..|ys|] == ys;
    var first := if limLeft then LimitLeft(xs, ys) else (xs, ys);
    assert first == (xs[0..hi], ys[0..hi]);
    var lo := if limRight then ArgMax(first.0) else 0;
    assert xs[0..hi][lo..] == xs[lo..hi] && ys[0..hi][lo..] == ys[lo..hi];
    assert Branch(xs, ys, limLeft, limRight) == (xs[lo..hi], ys[lo..hi]);
    ZipSlice(xs, ys, lo, hi);
  }

  /** Every branch still reaches the curve's maximum, so the upper bound of the
      reachability check is exact for the branch that is interpolated. */
  lemma BranchKeepsMax(xs: seq<real>, ys: seq<real>, limLeft: bool, limRight: bool)
    requires |xs| == |ys| && |xs| > 0
    ensures Max(Branch(xs, ys, limLeft, limRight).0) == Max(xs)
  {
    var first := if limLeft then LimitLeft(xs, ys) else (xs, ys);
    if limLeft {
      MaxIs(first.0, |first.0| - 1);
    }
    if limRight {
      var r := LimitRight(first.0, first.1);
      MaxIs(r.0, 0);
    }
  }

  /** With both flags the kept curve is the single peak sample. */
  lemma BothLimitsKeepPeak(xs: seq<real>, ys: seq<real>)
    requires |xs| == |ys| && |xs| > 0
    ensures Branch(xs, ys, true, true) == ([Max(xs)], [ys[ArgMax(xs)]])
  {
    var first := LimitLeft(xs, ys);
    var k := ArgMax(xs);
    ArgMaxIsMax(xs);
    ArgMaxIs(first.0, k);
    assert first.0[k..] == [Max(xs)] && first.1[k..] == [ys[k]];
  }

  /** The reachability check looks at the whole curve, not at the branch: a target
      can pass it and still lie below everything the branch keeps. */
  lemma FeasibleOffBranch()
    ensures Feasible([0.5], [0.0, 2.0, 1.0])
    ensures Branch([0.0, 2.0, 1.0], [0.0, 0.0, 0.0], false, true).0 == [2.0, 1.0]
  {
    var xs := [0.0, 2.0, 1.0];
    assert Min(xs) == 0.0 && Max(xs) == 2.0 && ArgMax(xs) == 1;
  }

  /** interp_func(x_desired): the interpolator built from the kept pairs, at each target. */
  function Interpolate(cubic: Interp1, xs: seq<real>, ys: seq<real>, at: seq<real>): (r: seq<real>)
    requires |xs| == |ys|
    ensures |r| == |at|
  {
    seq(|at|, i requires 0 <= i < |at| => cubic(Zip(xs, ys), at[i]))
  }

  /** _look_up_vs_ratio once the curves are known: both need at least two samples, the
      targets must be reachable, and the wanted quantity is interpolated on the kept
      branch. */
  function CurveInversion(xName: string, xd: seq<real>, xCalc: seq<real>, yCalc: seq<real>,
                          limLeft: bool, limRight: bool, cubic: Interp1): (r: Result<seq<real>>)
    requires |xCalc| == |yCalc|
    ensures r.Ok? ==> |r.value| == |xd| && |xCalc| >= 2
  {
    if |xd| == 0 || |xCalc| == 0 then Err(EmptySequence)
    else if |xCalc| == 1 then Err(ZeroDimIteration)
    else if !Feasible(xd, xCalc) then Err(Unachievable(xName))
    else
      var kept := Branch(xCalc, yCalc, limLeft, limRight);
      Ok(Interpolate(cubic, kept.0, kept.1, xd))
  }

  /** _look_up_vs_ratio at scalar (l, vds, vsb) over the VGS sweep vgs, stated on the
      pointwise quantities: the targets are normalised with no default, the ratio and
      the wanted quantity are taken along VGS (the ratio's error first), both curves
      need at least two samples, the targets must be reachable, and the wanted
      quantity is interpolated on the kept branch. */
  function InvertSpec(t: DeviceTable, yvar: string, xName: string, targets: Value, vgs: seq<real>,
                      l: real, vds: real, vsb: real, limLeft: bool, limRight: bool, cubic: Interp1)
    : (r: Result<seq<real>>)
    requires Valid(t) && RatioDefined(t, xName) && RatioDefined(t, yvar)
    ensures r.Ok? ==> CorrectArr(targets, Absent).Ok? && |r.value| == |CorrectArr(targets, Absent).value|
    ensures r.Ok? ==> |vgs| >= 2
  {
    var xd :- CorrectArr(targets, Absent);
    var fx :- Resolve(t, xName);
    var fy :- Resolve(t, yvar);
    CurveInversion(xName, xd, Along(fx, vgs, l, vds, vsb), Along(fy, vgs, l, vds, vsb), limLeft, limRight, cubic)
  }

  /** An inversion that succeeds returns one value per target, and every target lies
      within the range of the ratio's curve along VGS. Once both names resolve and
      targets and sweep have at least one and two elements, it fails exactly when some
      target is outside that range, with the Unachievable error. */
  lemma InvertOutcome(t: DeviceTable, yvar: string, xName: string, targets: seq<real>, vgs: seq<real>,
                      l: real, vds: real, vsb: real, limLeft: bool, limRight: bool, cubic: Interp1)
    requires Valid(t) && RatioDefined(t, xName) && RatioDefined(t, yvar)
    requires Resolve(t, xName).Ok? && Resolve(t, yvar).Ok?
    requires |targets| >= 1 && |vgs| >= 2
    ensures var curve := Along(Resolve(t, xName).value, vgs, l, vds, vsb);
      var r := InvertSpec(t, yvar, xName, NdArray(targets), vgs, l, vds, vsb, limLeft, limRight, cubic);
      (r.Ok? ==> |r.value| == |targets|) &&
      (r.Ok? <==> forall i :: 0 <= i < |targets| ==> Min(curve) <= targets[i] <= Max(curve)) &&
      (r.Err? ==> r.error == Unachievable(xName))
  {
  }

  /** The inversion fails when a name does not resolve, with the ratio's error first,
      for target and sweep arrays of any length. */
  lemma InvertUnresolved(t: DeviceTable, yvar: string, xName: string, targets: seq<real>, vgs: seq<real>,
                         l: real, vds: real, vsb: real, limLeft: bool, limRight: bool, cubic: Interp1)
    requires Valid(t) && RatioDefined(t, xName) && RatioDefined(t, yvar)
    ensures Resolve(t, xName).Err? ==>
      InvertSpec(t, yvar, xName, NdArray(targets), vgs, l, vds, vsb, limLeft, limRight, cubic) == Err(Resolve(t, xName).error)
    ensures Resolve(t, xName).Ok? && Resolve(t, yvar).Err? ==>
      InvertSpec(t, yvar, xName, NdArray(targets), vgs, l, vds, vsb, limLeft, limRight, cubic) == Err(Resolve(t, yvar).error)
  {
  }

  /** An empty target set, or an empty sweep, is an error; a single-sample sweep is
      squeezed to a 0-d array, which min() cannot iterate. */
  lemma InvertShortInputs(t: DeviceTable, yvar: string, xName: string, targets: seq<real>, vgs: seq<real>,
                          l: real, vds: real, vsb: real, limLeft: bool, limRight: bool, cubic: Interp1)
    requires Valid(t) && RatioDefined(t, xName) && RatioDefined(t, yvar)
    requires Resolve(t, xName).Ok? && Resolve(t, yvar).Ok?
    ensures |targets| == 0 || |vgs| == 0 ==>
      InvertSpec(t, yvar, xName, NdArray(targets), vgs, l, vds, vsb, limLeft, limRight, cubic) == Err(EmptySequence)
    ensures |targets| > 0 && |vgs| == 1 ==>
      InvertSpec(t, yvar, xName, NdArray(targets), vgs, l, vds, vsb, limLeft, limRight, cubic) == Err(ZeroDimIteration)
  {
  }

  /** VGS is an axis of the table, not a quantity: asking the inversion for y = VGS
      fails once the ratio resolves, because the axis array is not callable. */
  lemma VgsIsNoQuantity(t: DeviceTable, xName: string, targets: Value, vgs: seq<real>,
                        l: real, vds: real, vsb: real, limLeft: bool, limRight: bool, cubic: Interp1)
    requires Valid(t) && RatioDefined(t, xName) && RatioDefined(t, "VGS")
    requires CorrectArr(targets, Absent).Ok? && Resolve(t, xName).Ok?
    ensures InvertSpec(t, "VGS", xName, targets, vgs, l, vds, vsb, limLeft, limRight, cubic) == Err(NotCallable("VGS"))
  {
    assert Separator !in "VGS";
  }

  /** No two samples share an x value. */
  predicate DistinctXs(xs: seq<real>)
  {
    forall a, b :: 0 <= a < b < |xs| ==> xs[a] != xs[b]
  }

  /** An interpolator that passes through each of its samples when their x values
      are distinct, as spline interpolation does. */
  ghost predicate ExactAtNodes(cubic: Interp1)
  {
    forall xs: seq<real>, ys: seq<real>, j: int ::
      |xs| == |ys| && DistinctXs(xs) && 0 <= j < |xs| ==> cubic(Zip(xs, ys), xs[j]) == ys[j]
  }

  /** A target that equals the ratio at a kept sample is inverted to the wanted
      quantity at that sample, for an interpolator exact at its nodes. */
  lemma InvertAtNode(t: DeviceTable, yvar: string, xName: string, targets: seq<real>, vgs: seq<real>,
                     l: real, vds: real, vsb: real, limLeft: bool, limRight: bool, cubic: Interp1, n: nat, j: nat)
    requires Valid(t) && RatioDefined(t, xName) && RatioDefined(t, yvar) && ExactAtNodes(cubic)
    requires Resolve(t, xName).Ok? && Resolve(t, yvar).Ok?
    requires |vgs| >= 2 && n < |targets|
    requires var xs := Along(Resolve(t, xName).value, vgs, l, vds, vsb);
      var kept := Branch(xs, Along(Resolve(t, yvar).value, vgs, l, vds, vsb), limLeft, limRight);
      Feasible(targets, xs) && DistinctXs(kept.0) && j < |kept.0| && targets[n] == kept.0[j]
    ensures var r := InvertSpec(t, yvar, xName, NdArray(targets), vgs, l, vds, vsb, limLeft, limRight, cubic);
      var kept := Branch(Along(Resolve(t, xName).value, vgs, l, vds, vsb),
                         Along(Resolve(t, yvar).value, vgs, l, vds, vsb), limLeft, limRight);
      r.Ok? && r.value[n] == kept.1[j]
  {
    var xs, ys := Along(Resolve(t, xName).value, vgs, l, vds, vsb), Along(Resolve(t, yvar).value, vgs, l, vds, vsb);
    var kept := Branch(xs, ys, limLeft, limRight);
    assert InvertSpec(t, yvar, xName, NdArray(targets), vgs, l, vds, vsb, limLeft, limRight, cubic)
        == Ok(Interpolate(cubic, kept.0, kept.1, targets));
    assert cubic(Zip(kept.0, kept.1), kept.0[j]) == kept.1[j];
  }

  /** An interpolator that reproduces samples lying on the diagonal y = x. */
  ghost predicate ExactOnDiagonal(cubic: Interp1)
  {
    forall ps: seq<(real, real)>, v: real ::
      (forall i :: 0 <= i < |ps| ==> ps[i].0 == ps[i].1) ==> cubic(ps, v) == v
  }

  lemma BranchOfDiagonal(xs: seq<real>, limLeft: bool, limRight: bool)
    requires |xs| > 0
    ensures Branch(xs, xs, limLeft, limRight).0 == Branch(xs, xs, limLeft, limRight).1
  {
  }

  /** Inverting a quantity against itself gives back the targets, for an interpolator
      exact on diagonal samples. */
  lemma SelfInversion(t: DeviceTable, xName: string, targets: Value, vgs: seq<real>,
                      l: real, vds: real, vsb: real, limLeft: bool, limRight: bool, cubic: Interp1)
    requires Valid(t) && RatioDefined(t, xName) && ExactOnDiagonal(cubic)
    requires InvertSpec(t, xName, xName, targets, vgs, l, vds, vsb, limLeft, limRight, cubic).Ok?
    ensures InvertSpec(t, xName, xName, targets, vgs, l, vds, vsb, limLeft, limRight, cubic) == CorrectArr(targets, Absent)
  {
    var xd := CorrectArr(targets, Absent).value;
    var xCalc := Along(Resolve(t, xName).value, vgs, l, vds, vsb);
    BranchOfDiagonal(xCalc, limLeft, limRight);
    var kept := Branch(xCalc, xCalc, limLeft, limRight);
    assert InvertSpec(t, xName, xName, targets, vgs, l, vds, vsb, limLeft, limRight, cubic)
        == Ok(Interpolate(cubic, kept.0, kept.1, xd));
    var z := Zip(kept.0, kept.1);
    assert forall i :: 0 <= i < |z| ==> z[i].0 == z[i].1;
    var r := Interpolate(cubic, kept.0, kept.1, xd);
    forall i | 0 <= i < |xd| ensures r[i] == xd[i] {
      assert r[i] == cubic(z, xd[i]);
    }
    assert r == xd;
  }

  /** _look_up_vs_ratio once the curves are known, reassigning x_calc and y_calc as the code does. */
  method InvertCurve(xName: string, xd: seq<real>, xCalc: seq<real>, yCalc: seq<real>,
                     limLeft: bool, limRight: bool, cubic: Interp1) returns (r: Result<seq<real>>)
    requires |xCalc| == |yCalc|
    ensures r == CurveInversion(xName, xd, xCalc, yCalc, limLeft, limRight, cubic)
  {
    if |xd| == 0 || |xCalc| == 0 {
      return Err(EmptySequence);
    }
    if |xCalc| == 1 {
      return Err(ZeroDimIteration);
    }
    if Min(xd) < Min(xCalc) || Max(xd) > Max(xCalc) {
      return Err(Unachievable(xName));
    }
    var xs, ys := xCalc, yCalc;
    if limLeft {
      var maxIdx := ArgMax(xs);
      xs := xs[..maxIdx + 1];
      ys := ys[..maxIdx + 1];
    }
    if limRight {
      var maxIdx := ArgMax(xs);
      xs := xs[maxIdx..];
      ys := ys[maxIdx..];
    }
    assert (xs, ys) == Branch(xCalc, yCalc, limLeft, limRight);
    r := Ok(Interpolate(cubic, xs, ys, xd));
  }

  /** _look_up_vs_ratio: normalise the targets, run the vectorised forward lookup of
      both names over the sweep, squeeze the results and invert. */
  method InvertAtPoint(t: DeviceTable, yvar: string, xName: string, targets: Value, vgs: seq<real>,
                       l: real, vds: real, vsb: real, limLeft: bool, limRight: bool, cubic: Interp1)
    returns (r: Result<seq<real>>)
    requires Valid(t) && RatioDefined(t, xName) && RatioDefined(t, yvar)
    ensures r == InvertSpec(t, yvar, xName, targets, vgs, l, vds, vsb, limLeft, limRight, cubic)
  {
    var xd :- CorrectArr(targets, Absent);
    SweepIsCurve(t, xName, vgs, l, vds, vsb);
    SweepIsCurve(t, yvar, vgs, l, vds, vsb);
    var xt :- LookUpBasic(t, xName, NdArray(vgs), Number(vds), Number(vsb), Number(l));
    var yt :- LookUpBasic(t, yvar, NdArray(vgs), Number(vds), Number(vsb), Number(l));
    r := InvertCurve(xName, xd, VgsRow(xt, |vgs|), VgsRow(yt, |vgs|), limLeft, limRight, cubic);
  }
}
