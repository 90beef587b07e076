/** Forward lookup (_look_up_basic): every (l, vgs, vds, vsb) combination of the
    normalised axes is written into a grid of query points, and the quantity's
    interpolator, or the quotient of two, is evaluated on the whole grid. */
module Forward {
  import opened Results
  import opened Seqs
  import opened Names
  import opened Device

  /** A dense rank-4 array, indexed [l][vgs][vds][vsb]. */
  type Tensor4<T> = seq<seq<seq<seq<T>>>>

  predicate Shape4<T>(x: Tensor4<T>, a: nat, b: nat, c: nat, d: nat)
  {
    |x| == a &&
    (forall i :: 0 <= i < a ==> |x[i]| == b) &&
    (forall i, j :: 0 <= i < a && 0 <= j < b ==> |x[i][j]| == c) &&
    (forall i, j, k :: 0 <= i < a && 0 <= j < b && 0 <= k < c ==> |x[i][j][k]| == d)
  }

  /** The outer product of the four axes: cell [i][j][k][m] is (l[i], vgs[j], vds[k], vsb[m]). */
  function Grid(l: seq<real>, vgs: seq<real>, vds: seq<real>, vsb: seq<real>): (g: Tensor4<Point>)
    ensures Shape4(g, |l|, |vgs|, |vds|, |vsb|)
  {
    seq(|l|, i requires 0 <= i < |l| =>
      seq(|vgs|, j requires 0 <= j < |vgs| =>
        seq(|vds|, k requires 0 <= k < |vds| =>
          seq(|vsb|, m requires 0 <= m < |vsb| => Point(l[i], vgs[j], vds[k], vsb[m])))))
  }

  /** (i, j, k, m) indexes a cell of x, whatever its shape. */
  predicate Cell<T>(x: Tensor4<T>, i: int, j: int, k: int, m: int)
  {
    0 <= i < |x| && 0 <= j < |x[i]| && 0 <= k < |x[i][j]| && 0 <= m < |x[i][j][k]|
  }

  /** x and y have the same nesting lengths at every level. */
  predicate SameShape<A, B>(x: Tensor4<A>, y: Tensor4<B>)
  {
    |x| == |y| &&
    forall i :: 0 <= i < |x| ==> (|x[i]| == |y[i]| &&
      forall j :: 0 <= j < |x[i]| ==> (|x[i][j]| == |y[i][j]| &&
        forall k :: 0 <= k < |x[i][j]| ==> |x[i][j][k]| == |y[i][j][k]|))
  }

  /** A vectorised interpolator call, data_dict[name](x): f applied to every point of
      the grid, giving an array of the grid's shape. */
  function MapT(f: Point -> real, g: Tensor4<Point>): (r: Tensor4<real>)
    ensures SameShape(r, g)
    ensures forall i, j, k, m :: Cell(g, i, j, k, m) ==> r[i][j][k][m] == f(g[i][j][k][m])
  {
    seq(|g|, i requires 0 <= i < |g| =>
      seq(|g[i]|, j requires 0 <= j < |g[i]| =>
        seq(|g[i][j]|, k requires 0 <= k < |g[i][j]| =>
          seq(|g[i][j][k]|, m requires 0 <= m < |g[i][j][k]| => f(g[i][j][k][m])))))
  }

  /** Two arrays of the same shape, the second free of zeros. */
  ghost predicate CanDivide(a: Tensor4<real>, b: Tensor4<real>)
  {
    |a| == |b| &&
    forall i :: 0 <= i < |a| ==> (|a[i]| == |b[i]| &&
      forall j :: 0 <= j < |a[i]| ==> (|a[i][j]| == |b[i][j]| &&
        forall k :: 0 <= k < |a[i][j]| ==> (|a[i][j][k]| == |b[i][j][k]| &&
          forall m :: 0 <= m < |a[i][j][k]| ==> b[i][j][k][m] != 0.0)))
  }

  /** Evaluating a nowhere-zero interpolator gives a valid denominator. */
  lemma MapTDivisible(num: Point -> real, den: Point -> real, g: Tensor4<Point>)
    requires forall p: Point :: den(p) != 0.0
    ensures CanDivide(MapT(num, g), MapT(den, g))
  {
  }

  /** Elementwise quotient num / den of two arrays of the same shape. */
  function Divide(a: Tensor4<real>, b: Tensor4<real>): (r: Tensor4<real>)
    requires CanDivide(a, b)
    ensures SameShape(r, a)
    ensures forall i, j, k, m :: Cell(a, i, j, k, m) ==> r[i][j][k][m] == a[i][j][k][m] / b[i][j][k][m]
  {
    seq(|a|, i requires 0 <= i < |a| =>
      seq(|a[i]|, j requires 0 <= j < |a[i]| =>
        seq(|a[i][j]|, k requires 0 <= k < |a[i][j]| =>
          seq(|a[i][j][k]|, m requires 0 <= m < |a[i][j][k]| => a[i][j][k][m] / b[i][j][k][m]))))
  }

  /** _look_up_basic, the evaluation step: a name holding '_' is split and the first
      part's values are divided by the second part's; any other name is evaluated
      directly. */
  function Evaluate(t: DeviceTable, name: string, g: Tensor4<Point>): (r: Result<Tensor4<real>>)
    requires RatioDefined(t, name)
    ensures r.Ok? <==> Resolve(t, name).Ok?
    ensures r.Err? ==> r.error.KeyError? || r.error.NotCallable?
  {
    if Separator in name then
      var parts := Split(name, Separator);
      SplitSingleIff(name, Separator);
      var num :- Lookup(t, parts[0]);
      var den :- Lookup(t, parts[1]);
      MapTDivisible(num, den, g);
      Ok(Divide(MapT(num, g), MapT(den, g)))
    else
      var f :- Lookup(t, name);
      Ok(MapT(f, g))
  }

  /** Cell (i, j, k, m) lies inside a box of the given dimensions. */
  predicate InBox(a: nat, b: nat, c: nat, d: nat, i: int, j: int, k: int, m: int)
  {
    0 <= i < a && 0 <= j < b && 0 <= k < c && 0 <= m < d
  }

  lemma GridCells(l: seq<real>, vgs: seq<real>, vds: seq<real>, vsb: seq<real>)
    ensures Shape4(Grid(l, vgs, vds, vsb), |l|, |vgs|, |vds|, |vsb|)
    ensures forall i, j, k, m :: InBox(|l|, |vgs|, |vds|, |vsb|, i, j, k, m) ==>
      Grid(l, vgs, vds, vsb)[i][j][k][m] == Point(l[i], vgs[j], vds[k], vsb[m])
  {
  }

  lemma MapTCells(f: Point -> real, g: Tensor4<Point>, a: nat, b: nat, c: nat, d: nat)
    requires Shape4(g, a, b, c, d)
    ensures Shape4(MapT(f, g), a, b, c, d)
    ensures forall i, j, k, m :: InBox(a, b, c, d, i, j, k, m) ==> MapT(f, g)[i][j][k][m] == f(g[i][j][k][m])
  {
  }

  lemma DivideCells(x: Tensor4<real>, y: Tensor4<real>, a: nat, b: nat, c: nat, d: nat)
    requires Shape4(x, a, b, c, d) && Shape4(y, a, b, c, d) && CanDivide(x, y)
    ensures Shape4(Divide(x, y), a, b, c, d)
    ensures forall i, j, k, m :: InBox(a, b, c, d, i, j, k, m) ==>
      Divide(x, y)[i][j][k][m] == x[i][j][k][m] / y[i][j][k][m]
  {
  }

  /** The vectorised evaluation agrees with the pointwise one: it fails exactly when
      the name does not resolve, with the same error, and otherwise it has the grid's
      shape and every cell holds the quantity at that cell's point. */
  lemma EvaluateAgrees(t: DeviceTable, name: string, g: Tensor4<Point>, a: nat, b: nat, c: nat, d: nat)
    requires RatioDefined(t, name) && Shape4(g, a, b, c, d)
    ensures Evaluate(t, name, g).Ok? <==> Resolve(t, name).Ok?
    ensures Evaluate(t, name, g).Err? ==> Evaluate(t, name, g).error == Resolve(t, name).error
    ensures Evaluate(t, name, g).Ok? ==> Shape4(Evaluate(t, name, g).value, a, b, c, d)
    ensures Evaluate(t, name, g).Ok? ==>
      forall i, j, k, m :: InBox(a, b, c, d, i, j, k, m) ==>
        Resolve(t, name).value(g[i][j][k][m]) == Evaluate(t, name, g).value[i][j][k][m]
  {
    if Separator in name {
      var parts := Split(name, Separator);
      SplitSingleIff(name, Separator);
      if Lookup(t, parts[0]).Ok? && Lookup(t, parts[1]).Ok? {
        var num, den := Lookup(t, parts[0]).value, Lookup(t, parts[1]).value;
        MapTCells(num, g, a, b, c, d);
        MapTCells(den, g, a, b, c, d);
        MapTDivisible(num, den, g);
        DivideCells(MapT(num, g), MapT(den, g), a, b, c, d);
      }
    } else if Lookup(t, name).Ok? {
      MapTCells(Lookup(t, name).value, g, a, b, c, d);
    }
  }

  /** Evaluating "A_B" is evaluating A, evaluating B, and dividing elementwise. */
  lemma RatioIsQuotient(t: DeviceTable, a: string, b: string, g: Tensor4<Point>)
    requires Separator !in a && Separator !in b
    requires RatioDefined(t, a + [Separator] + b)
    requires Lookup(t, a).Ok? && Lookup(t, b).Ok?
    ensures Evaluate(t, a, g).Ok? && Evaluate(t, b, g).Ok?
    ensures CanDivide(Evaluate(t, a, g).value, Evaluate(t, b, g).value)
    ensures Evaluate(t, a + [Separator] + b, g) ==
            Ok(Divide(Evaluate(t, a, g).value, Evaluate(t, b, g).value))
  {
    RatioName(a, b);
  }

  /** _look_up_basic on value tensors: normalise l, vgs, vds, vsb (in that order,
      with the table's defaults), build the grid and evaluate the quantity on it. */
  function LookUpBasicSpec(t: DeviceTable, name: string, vgs: Value, vds: Value, vsb: Value, l: Value)
    : (r: Result<Tensor4<real>>)
    requires Valid(t) && RatioDefined(t, name)
    ensures r.Ok? <==> CorrectArr(l, DefaultL(t)).Ok? && CorrectArr(vgs, DefaultVgs(t)).Ok? &&
                        CorrectArr(vds, DefaultVds(t)).Ok? && CorrectArr(vsb, DefaultVsb).Ok? &&
                        Resolve(t, name).Ok?
    ensures r.Err? ==> r.error.InvalidValue? || r.error.KeyError? || r.error.NotCallable?
  {
    var la :- CorrectArr(l, DefaultL(t));
    var vgsa :- CorrectArr(vgs, DefaultVgs(t));
    var vdsa :- CorrectArr(vds, DefaultVds(t));
    var vsba :- CorrectArr(vsb, DefaultVsb);
    Evaluate(t, name, Grid(la, vgsa, vdsa, vsba))
  }

  /** The forward lookup has shape (|l|, |vgs|, |vds|, |vsb|) of the normalised axes,
      and cell [i][j][k][m] is the quantity at (l[i], vgs[j], vds[k], vsb[m]):
      every combination is evaluated. */
  lemma LookUpBasicCells(t: DeviceTable, name: string, vgs: Value, vds: Value, vsb: Value, l: Value)
    requires Valid(t) && RatioDefined(t, name)
    requires LookUpBasicSpec(t, name, vgs, vds, vsb, l).Ok?
    ensures CorrectArr(l, DefaultL(t)).Ok? && CorrectArr(vgs, DefaultVgs(t)).Ok?
    ensures CorrectArr(vds, DefaultVds(t)).Ok? && CorrectArr(vsb, DefaultVsb).Ok?
    ensures
      var la, vgsa := CorrectArr(l, DefaultL(t)).value, CorrectArr(vgs, DefaultVgs(t)).value;
      var vdsa, vsba := CorrectArr(vds, DefaultVds(t)).value, CorrectArr(vsb, DefaultVsb).value;
      var r := LookUpBasicSpec(t, name, vgs, vds, vsb, l).value;
      Shape4(r, |la|, |vgsa|, |vdsa|, |vsba|) &&
      forall i, j, k, m :: InBox(|la|, |vgsa|, |vdsa|, |vsba|, i, j, k, m) ==>
        Resolve(t, name).Ok? && Resolve(t, name).value(Point(la[i], vgsa[j], vdsa[k], vsba[m])) == r[i][j][k][m]
  {
    var la, vgsa := CorrectArr(l, DefaultL(t)).value, CorrectArr(vgs, DefaultVgs(t)).value;
    var vdsa, vsba := CorrectArr(vds, DefaultVds(t)).value, CorrectArr(vsb, DefaultVsb).value;
    var g := Grid(la, vgsa, vdsa, vsba);
    GridCells(la, vgsa, vdsa, vsba);
    EvaluateAgrees(t, name, g, |la|, |vgsa|, |vdsa|, |vsba|);
  }

  /** _look_up_basic, the grid step: allocate the grid and fill it with four nested loops. */
  method BuildGrid(l: seq<real>, vgs: seq<real>, vds: seq<real>, vsb: seq<real>) returns (x: array4<Point>)
    ensures x.Length0 == |l| && x.Length1 == |vgs| && x.Length2 == |vds| && x.Length3 == |vsb|
    ensures forall i, j, k, m :: 0 <= i < |l| && 0 <= j < |vgs| && 0 <= k < |vds| && 0 <= m < |vsb| ==>
      x[i, j, k, m] == Point(l[i], vgs[j], vds[k], vsb[m])
  {
    x := new Point[|l|, |vgs|, |vds|, |vsb|]((_, _, _, _) => Point(0.0, 0.0, 0.0, 0.0));
    for i := 0 to |l|
      invariant forall i', j', k', m' :: 0 <= i' < i && 0 <= j' < |vgs| && 0 <= k' < |vds| && 0 <= m' < |vsb| ==>
        x[i', j', k', m'] == Point(l[i'], vgs[j'], vds[k'], vsb[m'])
    {
      for j := 0 to |vgs|
        invariant forall i', j', k', m' :: 0 <= i' < i && 0 <= j' < |vgs| && 0 <= k' < |vds| && 0 <= m' < |vsb| ==>
          x[i', j', k', m'] == Point(l[i'], vgs[j'], vds[k'], vsb[m'])
        invariant forall j', k', m' :: 0 <= j' < j && 0 <= k' < |vds| && 0 <= m' < |vsb| ==>
          x[i, j', k', m'] == Point(l[i], vgs[j'], vds[k'], vsb[m'])
      {
        for k := 0 to |vds|
          invariant forall i', j', k', m' :: 0 <= i' < i && 0 <= j' < |vgs| && 0 <= k' < |vds| && 0 <= m' < |vsb| ==>
            x[i', j', k', m'] == Point(l[i'], vgs[j'], vds[k'], vsb[m'])
          invariant forall j', k', m' :: 0 <= j' < j && 0 <= k' < |vds| && 0 <= m' < |vsb| ==>
            x[i, j', k', m'] == Point(l[i], vgs[j'], vds[k'], vsb[m'])
          invariant forall k', m' :: 0 <= k' < k && 0 <= m' < |vsb| ==>
            x[i, j, k', m'] == Point(l[i], vgs[j], vds[k'], vsb[m'])
        {
          for m := 0 to |vsb|
            invariant forall i', j', k', m' :: 0 <= i' < i && 0 <= j' < |vgs| && 0 <= k' < |vds| && 0 <= m' < |vsb| ==>
              x[i', j', k', m'] == Point(l[i'], vgs[j'], vds[k'], vsb[m'])
            invariant forall j', k', m' :: 0 <= j' < j && 0 <= k' < |vds| && 0 <= m' < |vsb| ==>
              x[i, j', k', m'] == Point(l[i], vgs[j'], vds[k'], vsb[m'])
            invariant forall k', m' :: 0 <= k' < k && 0 <= m' < |vsb| ==>
              x[i, j, k', m'] == Point(l[i], vgs[j], vds[k'], vsb[m'])
            invariant forall m' :: 0 <= m' < m ==> x[i, j, k, m'] == Point(l[i], vgs[j], vds[k], vsb[m'])
          {
            x[i, j, k, m] := Point(l[i], vgs[j], vds[k], vsb[m]);
          }
        }
      }
    }
  }

  /** The contents of a grid array as a value. */
  function Contents(x: array4<Point>): Tensor4<Point>
    reads x
  {
    seq(x.Length0, i requires 0 <= i < x.Length0 reads x =>
      seq(x.Length1, j requires 0 <= j < x.Length1 reads x =>
        seq(x.Length2, k requires 0 <= k < x.Length2 reads x =>
          seq(x.Length3, m requires 0 <= m < x.Length3 reads x => x[i, j, k, m]))))
  }

  /** An array filled as BuildGrid promises holds exactly the outer-product grid. */
  lemma FilledIsGrid(x: array4<Point>, l: seq<real>, vgs: seq<real>, vds: seq<real>, vsb: seq<real>)
    requires x.Length0 == |l| && x.Length1 == |vgs| && x.Length2 == |vds| && x.Length3 == |vsb|
    requires forall i, j, k, m :: 0 <= i < |l| && 0 <= j < |vgs| && 0 <= k < |vds| && 0 <= m < |vsb| ==>
      x[i, j, k, m] == Point(l[i], vgs[j], vds[k], vsb[m])
    ensures Contents(x) == Grid(l, vgs, vds, vsb)
  {
    var c, g := Contents(x), Grid(l, vgs, vds, vsb);
    forall i | 0 <= i < |l| ensures c[i] == g[i] {
      forall j | 0 <= j < |vgs| ensures c[i][j] == g[i][j] {
        forall k | 0 <= k < |vds| ensures c[i][j][k] == g[i][j][k] {
          assert forall m :: 0 <= m < |vsb| ==> c[i][j][k][m] == g[i][j][k][m];
        }
      }
    }
  }

  /** _look_up_basic: the unsqueezed rank-4 result. */
  method LookUpBasic(t: DeviceTable, name: string, vgs: Value, vds: Value, vsb: Value, l: Value)
    returns (r: Result<Tensor4<real>>)
    requires Valid(t) && RatioDefined(t, name)
    ensures r == LookUpBasicSpec(t, name, vgs, vds, vsb, l)
  {
    var la :- CorrectArr(l, DefaultL(t));
    var vgsa :- CorrectArr(vgs, DefaultVgs(t));
    var vdsa :- CorrectArr(vds, DefaultVds(t));
    var vsba :- CorrectArr(vsb, DefaultVsb);
    assert LookUpBasicSpec(t, name, vgs, vds, vsb, l) == Evaluate(t, name, Grid(la, vgsa, vdsa, vsba));
    var x := BuildGrid(la, vgsa, vdsa, vsba);
    FilledIsGrid(x, la, vgsa, vdsa, vsba);
    var g := Contents(x);
    assert g == Grid(la, vgsa, vdsa, vsba);
    r := Evaluate(t, name, g);
  }
}
