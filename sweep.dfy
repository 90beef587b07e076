/** The swept drivers: _look_up_vs_ratio_swp and its three named forms, and
    look_up_vgs_vs_gm_id. Each runs three nested loops over the normalised L, VDS
    and VSB arrays and writes one row of |targets| values per combination. */
module Sweep {
  import opened Results
  import opened Seqs
  import opened Names
  import opened Device
  import opened Forward
  import opened Inversion

  /** The normalised outer axes and target values of a swept call. */
  datatype SweepAxes = SweepAxes(l: seq<real>, vds: seq<real>, vsb: seq<real>, targets: seq<real>)

  /** _look_up_vs_ratio_swp and look_up_vgs_vs_gm_id, normalisation: l, vds and vsb take the table's defaults; the targets
      have no default (an absent target is an error). */
  function SweepAxesOf(t: DeviceTable, targets: Value, vds: Value, vsb: Value, l: Value): (r: Result<SweepAxes>)
    requires Valid(t)
    ensures r.Ok? <==> CorrectArr(l, DefaultL(t)).Ok? && CorrectArr(vds, DefaultVds(t)).Ok? &&
                        CorrectArr(vsb, DefaultVsb).Ok? && CorrectArr(targets, targets).Ok?
    ensures targets.Absent? ==> r.Err?
  {
    var la :- CorrectArr(l, DefaultL(t));
    var vdsa :- CorrectArr(vds, DefaultVds(t));
    var vsba :- CorrectArr(vsb, DefaultVsb);
    var xd :- CorrectArr(targets, targets);
    Ok(SweepAxes(la, vdsa, vsba, xd))
  }

  predicate InBox3(ax: SweepAxes, i: int, k: int, m: int)
  {
    0 <= i < |ax.l| && 0 <= k < |ax.vds| && 0 <= m < |ax.vsb|
  }

  /** (i', k', m') is visited before (i, k, m) by the three nested loops. */
  predicate Before(i': int, k': int, m': int, i: int, k: int, m: int)
  {
    i' < i || (i' == i && (k' < k || (k' == k && m' < m)))
  }

  /** The inversion the driver runs at combination (i, k, m), over the whole VGS axis. */
  function RowAt(t: DeviceTable, yvar: string, xName: string, ax: SweepAxes, i: int, k: int, m: int,
                 limLeft: bool, limRight: bool, cubic: Interp1): (r: Result<seq<real>>)
    requires Valid(t) && RatioDefined(t, xName) && RatioDefined(t, yvar) && InBox3(ax, i, k, m)
    ensures r.Ok? ==> |r.value| == |ax.targets| && |AxisValues(t, "VGS")| >= 2
  {
    InvertSpec(t, yvar, xName, NdArray(ax.targets), AxisValues(t, "VGS"), ax.l[i], ax.vds[k], ax.vsb[m], limLeft, limRight, cubic)
  }

  /** What a swept inversion returns: a normalisation error as it is; otherwise an
      (|l|, |vds|, |vsb|) array whose row [i, k, m] is the inversion at
      (l[i], vds[k], vsb[m]), when every inversion succeeds; otherwise the error of the
      first combination, in loop order, whose inversion fails. */
  ghost predicate SweptOutcome(r: Result<array3<seq<real>>>, t: DeviceTable, yvar: string, xName: string,
                               targets: Value, vds: Value, vsb: Value, l: Value,
                               limLeft: bool, limRight: bool, cubic: Interp1)
    requires Valid(t) && RatioDefined(t, xName) && RatioDefined(t, yvar)
    reads if r.Ok? then {r.value} else {}
  {
    match SweepAxesOf(t, targets, vds, vsb, l)
    case Err(e) => r == Err(e)
    case Ok(ax) =>
      (r.Ok? ==>
        r.value.Length0 == |ax.l| && r.value.Length1 == |ax.vds| && r.value.Length2 == |ax.vsb| &&
        forall i, k, m :: InBox3(ax, i, k, m) ==>
          RowAt(t, yvar, xName, ax, i, k, m, limLeft, limRight, cubic) == Ok(r.value[i, k, m])) &&
      (r.Ok? <==> forall i, k, m :: InBox3(ax, i, k, m) ==>
          RowAt(t, yvar, xName, ax, i, k, m, limLeft, limRight, cubic).Ok?) &&
      (r.Err? ==> exists i, k, m :: (InBox3(ax, i, k, m) &&
          RowAt(t, yvar, xName, ax, i, k, m, limLeft, limRight, cubic) == Err(r.error) &&
          forall i', k', m' :: InBox3(ax, i', k', m') && Before(i', k', m', i, k, m) ==>
            RowAt(t, yvar, xName, ax, i', k', m', limLeft, limRight, cubic).Ok?))
  }

  /** The outcome of every row, indexed as the loops index it. */
  type Rows = (int, int, int) -> Result<seq<real>>

  /** rows gives the inversion of every combination; it is unfolded only where a
      particular row's inversion is mentioned. */
  ghost predicate Specifies(rows: Rows, t: DeviceTable, yvar: string, xName: string, ax: SweepAxes,
                            limLeft: bool, limRight: bool, cubic: Interp1)
    requires Valid(t) && RatioDefined(t, xName) && RatioDefined(t, yvar)
  {
    forall i, k, m {:trigger RowAt(t, yvar, xName, ax, i, k, m, limLeft, limRight, cubic)} ::
      InBox3(ax, i, k, m) ==> RowAt(t, yvar, xName, ax, i, k, m, limLeft, limRight, cubic) == rows(i, k, m)
  }

  /** Every combination the loops have visited before (i, k, m) holds its row. */
  ghost predicate RowsDone(out: array3<seq<real>>, rows: Rows, ax: SweepAxes, i: int, k: int, m: int)
    requires out.Length0 == |ax.l| && out.Length1 == |ax.vds| && out.Length2 == |ax.vsb|
    reads out
  {
    forall i', k', m' :: InBox3(ax, i', k', m') && Before(i', k', m', i, k, m) ==>
      rows(i', k', m') == Ok(out[i', k', m'])
  }

  function Zeros(n: nat): seq<real>
  {
    seq(n, _ => 0.0)
  }

  /** When the loops run to the end, the array holds every inversion. */
  lemma SweptOk(out: array3<seq<real>>, rows: Rows, t: DeviceTable, yvar: string, xName: string,
                targets: Value, vds: Value, vsb: Value, l: Value, ax: SweepAxes,
                limLeft: bool, limRight: bool, cubic: Interp1)
    requires Valid(t) && RatioDefined(t, xName) && RatioDefined(t, yvar)
    requires SweepAxesOf(t, targets, vds, vsb, l) == Ok(ax)
    requires Specifies(rows, t, yvar, xName, ax, limLeft, limRight, cubic)
    requires out.Length0 == |ax.l| && out.Length1 == |ax.vds| && out.Length2 == |ax.vsb|
    requires RowsDone(out, rows, ax, |ax.l|, 0, 0)
    ensures SweptOutcome(Ok(out), t, yvar, xName, targets, vds, vsb, l, limLeft, limRight, cubic)
  {
  }

  /** When the inversion at (i, k, m) fails after every earlier one succeeded, its
      error is the outcome. */
  lemma SweptErr(out: array3<seq<real>>, rows: Rows, e: Error, t: DeviceTable, yvar: string, xName: string,
                 targets: Value, vds: Value, vsb: Value, l: Value, ax: SweepAxes, i: nat, k: nat, m: nat,
                 limLeft: bool, limRight: bool, cubic: Interp1)
    requires Valid(t) && RatioDefined(t, xName) && RatioDefined(t, yvar)
    requires SweepAxesOf(t, targets, vds, vsb, l) == Ok(ax)
    requires Specifies(rows, t, yvar, xName, ax, limLeft, limRight, cubic)
    requires out.Length0 == |ax.l| && out.Length1 == |ax.vds| && out.Length2 == |ax.vsb|
    requires InBox3(ax, i, k, m) && rows(i, k, m) == Err(e)
    requires RowsDone(out, rows, ax, i, k, m)
    ensures SweptOutcome(Err(e), t, yvar, xName, targets, vds, vsb, l, limLeft, limRight, cubic)
  {
    assert RowAt(t, yvar, xName, ax, i, k, m, limLeft, limRight, cubic) == Err(e);
  }

  /** The inversion at combination (i, k, m), over the table's VGS axis. */
  method InvertRow(t: DeviceTable, yvar: string, xName: string, ax: SweepAxes, i: nat, k: nat, m: nat,
                   limLeft: bool, limRight: bool, cubic: Interp1) returns (row: Result<seq<real>>)
    requires Valid(t) && RatioDefined(t, xName) && RatioDefined(t, yvar) && InBox3(ax, i, k, m)
    ensures row == RowAt(t, yvar, xName, ax, i, k, m, limLeft, limRight, cubic)
  {
    row := InvertAtPoint(t, yvar, xName, NdArray(ax.targets), AxisValues(t, "VGS"), ax.l[i], ax.vds[k], ax.vsb[m],
                         limLeft, limRight, cubic);
  }

  /** The innermost loop: the inversions at (l[i], vds[k], vsb[m]) for every m, stopping
      at the first that fails. */
  method FillRun(out: array3<seq<real>>, ghost rows: Rows, t: DeviceTable, yvar: string, xName: string,
                 ax: SweepAxes, i: nat, k: nat, limLeft: bool, limRight: bool, cubic: Interp1)
    returns (done: Result<()>, ghost m: nat)
    requires Valid(t) && RatioDefined(t, xName) && RatioDefined(t, yvar)
    requires Specifies(rows, t, yvar, xName, ax, limLeft, limRight, cubic)
    requires out.Length0 == |ax.l| && out.Length1 == |ax.vds| && out.Length2 == |ax.vsb|
    requires i < |ax.l| && k < |ax.vds|
    requires RowsDone(out, rows, ax, i, k, 0)
    modifies out
    ensures done.Ok? ==> RowsDone(out, rows, ax, i, k + 1, 0)
    ensures done.Err? ==> InBox3(ax, i, k, m) && rows(i, k, m) == Err(done.error) && RowsDone(out, rows, ax, i, k, m)
  {
    m := 0;
    for j := 0 to |ax.vsb|
      invariant RowsDone(out, rows, ax, i, k, j)
    {
      var row := InvertRow(t, yvar, xName, ax, i, k, j, limLeft, limRight, cubic);
      match row
      case Err(e) =>
        done, m := Err(e), j;
        return;
      case Ok(v) =>
        out[i, k, j] := v;
    }
    done := Ok(());
  }

  /** The middle loop: every vds[k] at l[i], stopping at the first failing inversion. */
  method FillPlane(out: array3<seq<real>>, ghost rows: Rows, t: DeviceTable, yvar: string, xName: string,
                   ax: SweepAxes, i: nat, limLeft: bool, limRight: bool, cubic: Interp1)
    returns (done: Result<()>, ghost k: nat, ghost m: nat)
    requires Valid(t) && RatioDefined(t, xName) && RatioDefined(t, yvar)
    requires Specifies(rows, t, yvar, xName, ax, limLeft, limRight, cubic)
    requires out.Length0 == |ax.l| && out.Length1 == |ax.vds| && out.Length2 == |ax.vsb|
    requires i < |ax.l|
    requires RowsDone(out, rows, ax, i, 0, 0)
    modifies out
    ensures done.Ok? ==> RowsDone(out, rows, ax, i + 1, 0, 0)
    ensures done.Err? ==> InBox3(ax, i, k, m) && rows(i, k, m) == Err(done.error) && RowsDone(out, rows, ax, i, k, m)
  {
    k, m := 0, 0;
    for j := 0 to |ax.vds|
      invariant RowsDone(out, rows, ax, i, j, 0)
    {
      ghost var m';
      done, m' := FillRun(out, rows, t, yvar, xName, ax, i, j, limLeft, limRight, cubic);
      if done.Err? {
        k, m := j, m';
        return;
      }
    }
    done := Ok(());
  }

  /** _look_up_vs_ratio_swp. The vgs argument is not used: the search always runs over
      the table's whole VGS axis. */
  method LookUpVsRatioSwp(t: DeviceTable, yvar: string, xName: string, targets: Value,
                          vgs: Value, vds: Value, vsb: Value, l: Value,
                          limLeft: bool, limRight: bool, cubic: Interp1)
    returns (r: Result<array3<seq<real>>>)
    requires Valid(t) && RatioDefined(t, xName) && RatioDefined(t, yvar)
    ensures SweptOutcome(r, t, yvar, xName, targets, vds, vsb, l, limLeft, limRight, cubic)
    ensures r.Ok? ==> fresh(r.value)
  {
    var ax :- SweepAxesOf(t, targets, vds, vsb, l);
    ghost var rows: Rows := (i, k, m) =>
      if InBox3(ax, i, k, m) then RowAt(t, yvar, xName, ax, i, k, m, limLeft, limRight, cubic) else Err(EmptySequence);
    var out := new seq<real>[|ax.l|, |ax.vds|, |ax.vsb|]((_, _, _) => Zeros(|ax.targets|));
    for i := 0 to |ax.l|
      invariant RowsDone(out, rows, ax, i, 0, 0)
    {
      var done;
      ghost var k, m;
      done, k, m := FillPlane(out, rows, t, yvar, xName, ax, i, limLeft, limRight, cubic);
      if done.Err? {
        r := Err(done.error);
        SweptErr(out, rows, done.error, t, yvar, xName, targets, vds, vsb, l, ax, i, k, m, limLeft, limRight, cubic);
        return;
      }
    }
    r := Ok(out);
    SweptOk(out, rows, t, yvar, xName, targets, vds, vsb, l, ax, limLeft, limRight, cubic);
  }

  /** look_up_vs_gm_id: invert gm/Id on the branch right of its peak. */
  method LookUpVsGmId(t: DeviceTable, yvar: string, gmId: Value, vgs: Value, vds: Value, vsb: Value, l: Value,
                      cubic: Interp1)
    returns (r: Result<array3<seq<real>>>)
    requires Valid(t) && RatioDefined(t, "GM_ID") && RatioDefined(t, yvar)
    ensures SweptOutcome(r, t, yvar, "GM_ID", gmId, vds, vsb, l, false, true, cubic)
    ensures r.Ok? ==> fresh(r.value)
  {
    r := LookUpVsRatioSwp(t, yvar, "GM_ID", gmId, vgs, vds, vsb, l, false, true, cubic);
  }

  /** look_up_vs_gm_cgg: invert gm/Cgg on the branch left of its peak. */
  method LookUpVsGmCgg(t: DeviceTable, yvar: string, gmCgg: Value, vgs: Value, vds: Value, vsb: Value, l: Value,
                       cubic: Interp1)
    returns (r: Result<array3<seq<real>>>)
    requires Valid(t) && RatioDefined(t, "GM_CGG") && RatioDefined(t, yvar)
    ensures SweptOutcome(r, t, yvar, "GM_CGG", gmCgg, vds, vsb, l, true, false, cubic)
    ensures r.Ok? ==> fresh(r.value)
  {
    r := LookUpVsRatioSwp(t, yvar, "GM_CGG", gmCgg, vgs, vds, vsb, l, true, false, cubic);
  }

  /** look_up_vs_id_w: invert Id/W over the whole curve. */
  method LookUpVsIdW(t: DeviceTable, yvar: string, idW: Value, vgs: Value, vds: Value, vsb: Value, l: Value,
                     cubic: Interp1)
    returns (r: Result<array3<seq<real>>>)
    requires Valid(t) && RatioDefined(t, "ID_W") && RatioDefined(t, yvar)
    ensures SweptOutcome(r, t, yvar, "ID_W", idW, vds, vsb, l, false, false, cubic)
    ensures r.Ok? ==> fresh(r.value)
  {
    r := LookUpVsRatioSwp(t, yvar, "ID_W", idW, vgs, vds, vsb, l, false, false, cubic);
  }

  /** The body of look_up_vgs_vs_gm_id's loops at combination (i, k, m): gm/Id along the whole VGS axis, and the
      interpolator of VGS against it evaluated at the targets. */
  function SolvedRowAt(t: DeviceTable, ax: SweepAxes, i: int, k: int, m: int, cubic: Interp1): (row: seq<real>)
    requires Valid(t) && RatioDefined(t, "GM_ID") && InBox3(ax, i, k, m)
    ensures |row| == |ax.targets|
  {
    GmIdResolves(t);
    var vgs := AxisValues(t, "VGS");
    Interpolate(cubic, Along(Resolve(t, "GM_ID").value, vgs, ax.l[i], ax.vds[k], ax.vsb[m]), vgs, ax.targets)
  }

  /** A gm/Id target that equals gm/Id at a VGS sample is solved to that sample's VGS,
      for an interpolator exact at its nodes and a gm/Id curve with distinct values. */
  lemma SolveAtNode(t: DeviceTable, ax: SweepAxes, i: int, k: int, m: int, cubic: Interp1, n: nat, j: nat)
    requires Valid(t) && RatioDefined(t, "GM_ID") && InBox3(ax, i, k, m) && ExactAtNodes(cubic)
    requires Resolve(t, "GM_ID").Ok?
    requires var curve := Along(Resolve(t, "GM_ID").value, AxisValues(t, "VGS"), ax.l[i], ax.vds[k], ax.vsb[m]);
      DistinctXs(curve) && n < |ax.targets| && j < |curve| && ax.targets[n] == curve[j]
    ensures SolvedRowAt(t, ax, i, k, m, cubic)[n] == AxisValues(t, "VGS")[j]
  {
    var curve := Along(Resolve(t, "GM_ID").value, AxisValues(t, "VGS"), ax.l[i], ax.vds[k], ax.vsb[m]);
    assert cubic(Zip(curve, AxisValues(t, "VGS")), curve[j]) == AxisValues(t, "VGS")[j];
  }

  /** What look_up_vgs_vs_gm_id returns: a normalisation error as it is; otherwise an
      (|l|, |vds|, |vsb|) array whose row [i, k, m] solves for VGS at
      (l[i], vds[k], vsb[m]). In the model no combination fails: name resolution cannot fail
      in a valid table, and the interpolator's own rejections are left out. */
  ghost predicate SolvedOutcome(r: Result<array3<seq<real>>>, t: DeviceTable, gmId: Value, vds: Value, vsb: Value,
                                l: Value, cubic: Interp1)
    requires Valid(t) && RatioDefined(t, "GM_ID")
    reads if r.Ok? then {r.value} else {}
  {
    match SweepAxesOf(t, gmId, vds, vsb, l)
    case Err(e) => r == Err(e)
    case Ok(ax) =>
      r.Ok? &&
      r.value.Length0 == |ax.l| && r.value.Length1 == |ax.vds| && r.value.Length2 == |ax.vsb| &&
      forall i, k, m :: InBox3(ax, i, k, m) ==> r.value[i, k, m] == SolvedRowAt(t, ax, i, k, m, cubic)
  }

  /** solved gives the solved row of every combination; it is unfolded only where a
      particular row is mentioned. */
  ghost predicate SolvedBy(solved: (int, int, int) -> seq<real>, t: DeviceTable, ax: SweepAxes, cubic: Interp1)
    requires Valid(t) && RatioDefined(t, "GM_ID")
  {
    forall i, k, m {:trigger SolvedRowAt(t, ax, i, k, m, cubic)} ::
      InBox3(ax, i, k, m) ==> SolvedRowAt(t, ax, i, k, m, cubic) == solved(i, k, m)
  }

  /** Every combination visited before (i, k, m) holds its solved row. */
  ghost predicate RowsSolved(out: array3<seq<real>>, solved: (int, int, int) -> seq<real>, ax: SweepAxes,
                             i: int, k: int, m: int)
    requires out.Length0 == |ax.l| && out.Length1 == |ax.vds| && out.Length2 == |ax.vsb|
    reads out
  {
    forall i', k', m' :: InBox3(ax, i', k', m') && Before(i', k', m', i, k, m) ==>
      out[i', k', m'] == solved(i', k', m')
  }

  /** When the loops run to the end, the array holds every solved row. */
  lemma SolvedAll(out: array3<seq<real>>, solved: (int, int, int) -> seq<real>, t: DeviceTable,
                  gmId: Value, vds: Value, vsb: Value, l: Value, ax: SweepAxes, cubic: Interp1)
    requires Valid(t) && RatioDefined(t, "GM_ID")
    requires SweepAxesOf(t, gmId, vds, vsb, l) == Ok(ax) && SolvedBy(solved, t, ax, cubic)
    requires out.Length0 == |ax.l| && out.Length1 == |ax.vds| && out.Length2 == |ax.vsb|
    requires RowsSolved(out, solved, ax, |ax.l|, 0, 0)
    ensures SolvedOutcome(Ok(out), t, gmId, vds, vsb, l, cubic)
  {
  }

  /** The body of look_up_vgs_vs_gm_id's loops: look up gm/Id over the VGS axis, squeeze it, and interpolate VGS
      against it at the targets. */
  method SolveRow(t: DeviceTable, ax: SweepAxes, i: nat, k: nat, m: nat, cubic: Interp1) returns (row: seq<real>)
    requires Valid(t) && RatioDefined(t, "GM_ID") && InBox3(ax, i, k, m)
    ensures row == SolvedRowAt(t, ax, i, k, m, cubic)
  {
    var vgs := AxisValues(t, "VGS");
    GmIdResolves(t);
    SweepIsCurve(t, "GM_ID", vgs, ax.l[i], ax.vds[k], ax.vsb[m]);
    var gmIdCalc := LookUpBasic(t, "GM_ID", NdArray(vgs), Number(ax.vds[k]), Number(ax.vsb[m]), Number(ax.l[i]));
    row := Interpolate(cubic, VgsRow(gmIdCalc.value, |vgs|), vgs, ax.targets);
  }

  /** The innermost loop: the solved rows at (l[i], vds[k], vsb[m]) for every m. */
  method SolveRun(out: array3<seq<real>>, ghost solved: (int, int, int) -> seq<real>, t: DeviceTable,
                  ax: SweepAxes, i: nat, k: nat, cubic: Interp1)
    requires Valid(t) && RatioDefined(t, "GM_ID") && SolvedBy(solved, t, ax, cubic)
    requires out.Length0 == |ax.l| && out.Length1 == |ax.vds| && out.Length2 == |ax.vsb|
    requires i < |ax.l| && k < |ax.vds|
    requires RowsSolved(out, solved, ax, i, k, 0)
    modifies out
    ensures RowsSolved(out, solved, ax, i, k + 1, 0)
  {
    for m := 0 to |ax.vsb|
      invariant RowsSolved(out, solved, ax, i, k, m)
    {
      var row := SolveRow(t, ax, i, k, m, cubic);
      out[i, k, m] := row;
    }
  }

  /** The middle loop: every vds[k] at l[i]. */
  method SolvePlane(out: array3<seq<real>>, ghost solved: (int, int, int) -> seq<real>, t: DeviceTable,
                    ax: SweepAxes, i: nat, cubic: Interp1)
    requires Valid(t) && RatioDefined(t, "GM_ID") && SolvedBy(solved, t, ax, cubic)
    requires out.Length0 == |ax.l| && out.Length1 == |ax.vds| && out.Length2 == |ax.vsb|
    requires i < |ax.l|
    requires RowsSolved(out, solved, ax, i, 0, 0)
    modifies out
    ensures RowsSolved(out, solved, ax, i + 1, 0, 0)
  {
    for k := 0 to |ax.vds|
      invariant RowsSolved(out, solved, ax, i, k, 0)
    {
      SolveRun(out, solved, t, ax, i, k, cubic);
    }
  }

  /** look_up_vgs_vs_gm_id: the VGS that gives each gm/Id target, at every (l, vds, vsb)
      combination. */
  method LookUpVgsVsGmId(t: DeviceTable, gmId: Value, vds: Value, vsb: Value, l: Value, cubic: Interp1)
    returns (r: Result<array3<seq<real>>>)
    requires Valid(t) && RatioDefined(t, "GM_ID")
    ensures SolvedOutcome(r, t, gmId, vds, vsb, l, cubic)
    ensures r.Ok? ==> fresh(r.value)
  {
    var ax :- SweepAxesOf(t, gmId, vds, vsb, l);
    ghost var solved := (i, k, m) => if InBox3(ax, i, k, m) then SolvedRowAt(t, ax, i, k, m, cubic) else [];
    var out := new seq<real>[|ax.l|, |ax.vds|, |ax.vsb|]((_, _, _) => Zeros(|ax.targets|));
    for i := 0 to |ax.l|
      invariant RowsSolved(out, solved, ax, i, 0, 0)
    {
      SolvePlane(out, solved, t, ax, i, cubic);
    }
    r := Ok(out);
    SolvedAll(out, solved, t, gmId, vds, vsb, l, ax, cubic);
  }
}
