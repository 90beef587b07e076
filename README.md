# gm/Id table lookup, modelled in Dafny

This project models the lookup engine of `look_up.py`, a gm/Id design helper. A
device table holds four swept axes (L, VGS, VDS, VSB) and one grid interpolator
per output variable (W, ID, GM, CGG, ...). The engine has four parts:

- **Forward lookup** (`_look_up_basic`): normalises the four axis arguments,
  fills a 4-D grid of query points with four nested loops, and evaluates a named
  quantity on it. A name of the form `NUM_DEN` is evaluated as an elementwise
  ratio.
- **Ratio inversion at a point** (`_look_up_vs_ratio`): takes a ratio (gm/Id,
  gm/Cgg, Id/W) and a wanted quantity along the VGS axis at a fixed
  (L, VDS, VSB). It then:
  - checks that the targets are reachable;
  - optionally keeps only the part of the curve left or right of its peak;
  - interpolates the wanted quantity at the targets.
- **Swept inversion** (`_look_up_vs_ratio_swp` and its three named forms): runs the
  point inversion for every (L, VDS, VSB) combination and writes one row per
  combination into a 3-D output array. It stops at the first failing combination.
- **VGS solver** (`look_up_vgs_vs_gm_id`): for every combination, interpolates VGS
  against gm/Id along the VGS axis.

Modules, in dependency order:

| file | module | contents |
|---|---|---|
| results.dfy | `Results` | the `Result` type and the Python errors it carries |
| seqs.dfy | `Seqs` | `min`, `max`, `np.argmax`, pairing of two arrays |
| names.dfy | `Names` | `str.split` and `join` on the separator `_` |
| device.dfy | `Device` | the table, name lookup, `_correct_arr`, the defaults |
| forward.dfy | `Forward` | the query grid, vectorised evaluation, the forward lookup |
| inversion.dfy | `Inversion` | the point inversion, branch selection, round trips |
| sweep.dfy | `Sweep` | the swept drivers and the VGS solver |

The grid interpolators are modelled as opaque functions `Point -> real` stored in
the table. The cubic 1-D interpolator (`interp1d(..., kind='cubic')`) is an
opaque parameter `cubic` that takes the (x, y) samples and one query x. Where a
property depends on what the interpolator does, it is assumed as a hypothesis:
- `ExactAtNodes`: it passes through its samples;
- `ExactOnDiagonal`: it reproduces samples lying on y = x.

Each forward result is stated in two ways:
- vectorised, as `Forward.LookUpBasicSpec`;
- pointwise, through `Device.Resolve`, which gives the quantity a name denotes as a
  function of one query point.

`Forward.EvaluateAgrees` and `Inversion.SweepIsCurve` prove that the two agree.
The imperative members are proved equal to their specification functions:
- `Forward.LookUpBasic` (the grid loops);
- `Inversion.InvertCurve` (`x_calc`/`y_calc` reassigned in place);
- `Sweep.LookUpVsRatioSwp` and `Sweep.LookUpVgsVsGmId` (three nested loops over an
  `array3`).

Python exceptions become `Err` values:
- `InvalidValue` and `Unachievable` for the two `ValueError`s the code raises;
- `KeyError` for a missing table entry;
- `NotCallable` for calling a table entry that is not an interpolator;
- `EmptySequence` for `min()` of an empty array;
- `ZeroDimIteration` for `min()` of a 0-d array, which is what squeezing a
  single-sample VGS sweep leaves.

Points where the model makes the code's behaviour explicit:

- The point inversion cannot be asked for y = VGS: `data_dict['VGS']` is an array,
  not a callable (`Inversion.VgsIsNoQuantity`). The VGS solver therefore does not go
  through the inversion: it interpolates (gm/Id, VGS) pairs directly, with no
  reachability check and no branch selection.
- The swept drivers accept a `vgs` argument but overwrite it with the table's VGS
  axis (look_up.py:133). The model takes it and ignores it.
- Reachability is checked on the whole curve, before the branch is cut. A target can
  pass the check and still lie outside the branch that is interpolated
  (`Inversion.FeasibleOffBranch`).
- With both branch flags set, `lim_left` is applied first, so only the peak sample
  remains (`Inversion.BothLimitsKeepPeak`).

## Model

| member | source | states |
|---|---|---|
| Seqs.Min | look_up.py:109 | `min()` of a non-empty array is one of its elements and is no larger than any element |
| Seqs.Max | look_up.py:109 | `max()` of a non-empty array is one of its elements and is no smaller than any element |
| Seqs.ArgMax | look_up.py:114 | `np.argmax` is an index of the maximum, and every earlier element is strictly smaller (the first maximum) |
| Seqs.ArgMaxIs | look_up.py:118 | an index holding the maximum with nothing as large before it is the argmax |
| Seqs.IncreasingBounds | look_up.py:71-73 | on a strictly increasing axis, min is the first element and max the last |
| Seqs.Zip | look_up.py:121 | the (x, y) pairs handed to the interpolator pair the i-th x with the i-th y |
| Names.Split | look_up.py:89 | `str.split` always returns at least one part |
| Names.JoinSplit | look_up.py:89 | joining the parts of a split with the separator gives back the name |
| Names.SplitPartsHaveNoSeparator | look_up.py:89 | no part of a split contains the separator |
| Names.SplitSingleIff | look_up.py:88-89 | a name splits into exactly one part if and only if it holds no separator |
| Names.SplitJoin | look_up.py:89 | splitting the join of separator-free parts gives back those parts |
| Names.RatioName | look_up.py:88-89 | "A_B" with separator-free A and B holds the separator and splits into [A, B] |
| Device.Lookup | look_up.py:90-94 | calling `data_dict[name]` succeeds exactly for an interpolator entry; a missing name is a KeyError, a non-interpolator entry is not callable |
| Device.OutVarLookup | look_up.py:15-16 | every one of the 17 output variables can be called in a valid table |
| Device.GmIdResolves | look_up.py:88-91 | "GM_ID" splits into "GM" and "ID", both interpolators in a valid table, so the ratio resolves |
| Device.RatioDefinedFor | look_up.py:92 | the division in "A_B" is defined exactly when B's interpolator is nowhere zero |
| Device.Valid | look_up.py:15-49 | the table `importdata` hands over: the four axes are non-empty, as `min(data_dict['L'])` and `max(data_dict['VDS'])` at look_up.py:71 and 73 need, strictly increasing as the table's data contract has them, and each of the 17 output variables is an interpolator |
| Device.AxisValues | look_up.py:71-73 | each axis of a valid table is a non-empty array |
| Device.Resolve | look_up.py:88-94 | a name without the separator denotes its interpolator |
| Device.ResolveRatio | look_up.py:88-92 | a ratio name resolves exactly when both parts do, the numerator's error first, and its value at a point is numerator over denominator |
| Device.CorrectArr | look_up.py:53-66 | None takes the default; an array is kept; a list keeps its elements in order; a number becomes a one-element array; anything else is InvalidValue |
| Device.CorrectArrIdempotent | look_up.py:59-60 | normalising a normalised array gives the same array whatever the default |
| Device.DefaultL | look_up.py:71 | the default L is `min(L)`, which on the increasing axis is its first value |
| Device.DefaultVgs | look_up.py:72 | the default VGS is the whole VGS axis |
| Device.DefaultVds | look_up.py:73 | the default VDS is `max(VDS) / 2`, which on the increasing axis is half its last value |
| Device.Defaults | look_up.py:71-74 | on a valid table the defaults are [first L], the whole VGS axis, [last VDS / 2] and [0] |
| Forward.Grid | look_up.py:77-85 | the query grid has shape (\|l\|, \|vgs\|, \|vds\|, \|vsb\|) |
| Forward.MapT | look_up.py:90-91 | calling an interpolator on the grid (also the plain call at look_up.py:94) gives an array of the grid's shape whose every cell is the interpolator at that cell's point |
| Forward.Divide | look_up.py:92 | `num / den` of two same-shape arrays, the second free of zeros, has their shape and divides cell by cell |
| Forward.Evaluate | look_up.py:87-94 | evaluating a name on a grid succeeds exactly when the name resolves; otherwise the error is KeyError or not callable |
| Forward.EvaluateAgrees | look_up.py:87-94 | the vectorised evaluation fails exactly when the name does not resolve, with the same error; otherwise it has the grid's shape and each cell is the quantity at that cell's point |
| Forward.RatioIsQuotient | look_up.py:88-92 | evaluating "A_B" is evaluating A and B on the same grid and dividing elementwise |
| Forward.LookUpBasicSpec | look_up.py:69-94 | the forward lookup succeeds exactly when all four arguments normalise and the name resolves; every error is InvalidValue, KeyError or not callable |
| Forward.LookUpBasicCells | look_up.py:69-94 | the forward lookup has shape (\|l\|, \|vgs\|, \|vds\|, \|vsb\|) of the normalised axes, and cell [i][j][k][m] is the quantity at (l[i], vgs[j], vds[k], vsb[m]) |
| Forward.BuildGrid | look_up.py:76-85 | the four nested loops fill cell [i, j, k, m] of the grid with (l[i], vgs[j], vds[k], vsb[m]) |
| Forward.FilledIsGrid | look_up.py:76-85 | the filled array's contents are the outer-product grid |
| Forward.LookUpBasic | look_up.py:69-94 | the loop-built lookup returns exactly the forward lookup of the normalised arguments, including every error |
| Inversion.VgsRow | look_up.py:106-107 | squeezing a (1, n, 1, 1) lookup gives the n values along VGS, in order |
| Inversion.Along | look_up.py:106-107 | the curve of a quantity along VGS at fixed (l, vds, vsb) has one value per VGS sample, the j-th at VGS[j] |
| Inversion.Feasible | look_up.py:109-111 | the reachability check passes exactly when every target lies within [min x_calc, max x_calc] |
| Inversion.SweepIsCurve | look_up.py:106-107 | a lookup at fixed (l, vds, vsb) over a VGS sweep fails exactly when the name does not resolve; otherwise it squeezes to the quantity's curve along VGS |
| Inversion.LimitLeft | look_up.py:113-116 | lim_left keeps the prefix up to and including the first peak, in both arrays; the peak is the last kept sample and everything before it is lower |
| Inversion.LimitRight | look_up.py:117-120 | lim_right keeps the suffix from the first peak, in both arrays; the peak is the first kept sample, no later sample is higher, and everything cut off is lower |
| Inversion.Branch | look_up.py:113-120 | the kept branch is never empty and both arrays keep the same length |
| Inversion.BranchIsSlice | look_up.py:113-120 | both arrays are cut by the same index range, so the (x, y) pairs stay aligned |
| Inversion.BranchKeepsMax | look_up.py:113-120 | every branch still reaches the curve's maximum |
| Inversion.BothLimitsKeepPeak | look_up.py:113-120 | with both flags set only the peak sample is kept |
| Inversion.FeasibleOffBranch | look_up.py:109-120 | a target can pass the reachability check and lie below every sample of the right branch |
| Inversion.Interpolate | look_up.py:121-122 | the interpolator gives one value per target |
| Inversion.CurveInversion | look_up.py:109-122 | an inversion that succeeds gives one value per target and had at least two samples |
| Inversion.InvertSpec | look_up.py:101-122 | a successful point inversion had valid targets, returns one value per target, and searched at least two VGS samples |
| Inversion.InvertOutcome | look_up.py:104-111 | once both names resolve, with at least one target and two VGS samples: the inversion succeeds exactly when every target lies within the curve's range, and otherwise fails with Unachievable |
| Inversion.InvertUnresolved | look_up.py:106-107 | an inversion whose ratio does not resolve fails with the ratio's error; one whose wanted quantity does not resolve fails with that error |
| Inversion.InvertShortInputs | look_up.py:109 | an empty target set or an empty sweep is EmptySequence; a single-sample sweep is ZeroDimIteration |
| Inversion.VgsIsNoQuantity | look_up.py:107 | asking for y = VGS fails as not callable once the ratio resolves |
| Inversion.InvertAtNode | look_up.py:121-122 | a target equal to the ratio at a kept sample is inverted to the wanted quantity at that sample, for an interpolator exact at its nodes |
| Inversion.BranchOfDiagonal | look_up.py:113-120 | cutting an array paired with itself keeps it paired with itself |
| Inversion.SelfInversion | look_up.py:101-122 | inverting a quantity against itself returns the targets unchanged, for an interpolator exact on y = x |
| Inversion.InvertCurve | look_up.py:109-122 | the step-by-step reassignment of x_calc and y_calc computes the curve inversion |
| Inversion.InvertAtPoint | look_up.py:101-122 | the point inversion built on the loop-based forward lookup equals the pointwise specification, errors included |
| Sweep.SweepAxesOf | look_up.py:128-131 | l, vds and vsb take the table's defaults; absent targets are an error because they have no default |
| Sweep.RowAt | look_up.py:139-140 | the inversion at combination (i, k, m), when it succeeds, has one value per target and searched at least two VGS samples |
| Sweep.SweptOutcome | look_up.py:135-141 | the result of the swept inversion: the normalisation error, or the error of the first failing combination in loop order, or the full array of inversions |
| Sweep.SweptOk | look_up.py:136-141 | when every combination is filled, the array has shape (\|l\|, \|vds\|, \|vsb\|) and row [i, k, m] is the inversion at (l[i], vds[k], vsb[m]) |
| Sweep.SweptErr | look_up.py:136-140 | a failing combination whose predecessors all succeeded gives the sweep's error |
| Sweep.InvertRow | look_up.py:139-140 | each loop iteration runs the inversion at its own combination, over the table's whole VGS axis |
| Sweep.FillRun | look_up.py:138-140 | the innermost loop fills every vsb row at (l[i], vds[k]), or stops at the first failing one and reports its error |
| Sweep.FillPlane | look_up.py:137-140 | the middle loop fills every vds at l[i], or stops at the first failing combination |
| Sweep.LookUpVsRatioSwp | look_up.py:125-141 | a normalisation error is returned as is. Otherwise the result is Ok exactly when every combination's inversion succeeds, and then row [i, k, m] is that inversion. If not, the error is that of the first failing combination in loop order |
| Sweep.LookUpVsGmId | look_up.py:144-147 | the swept inversion of "GM_ID" on the right branch |
| Sweep.LookUpVsGmCgg | look_up.py:150-153 | the swept inversion of "GM_CGG" on the left branch |
| Sweep.LookUpVsIdW | look_up.py:156-159 | the swept inversion of "ID_W" on the whole curve |
| Sweep.SolveAtNode | look_up.py:175-177 | a gm/Id target equal to gm/Id at a VGS sample is solved to that sample's VGS, for an interpolator exact at its nodes and a curve with distinct values |
| Sweep.SolvedRowAt | look_up.py:175-177 | the VGS solved at combination (i, k, m) has one value per gm/Id target |
| Sweep.SolvedOutcome | look_up.py:171-178 | the result of the VGS solver: the normalisation error, or the (\|l\|, \|vds\|, \|vsb\|) array of solved rows |
| Sweep.SolvedAll | look_up.py:172-177 | when every combination is solved, the array is the solver's result |
| Sweep.SolveRow | look_up.py:175-177 | each iteration looks up gm/Id over the VGS axis and interpolates VGS against it at the targets |
| Sweep.SolveRun | look_up.py:174-177 | the innermost loop solves every vsb row at (l[i], vds[k]) and keeps the rows written before |
| Sweep.SolvePlane | look_up.py:173-177 | the middle loop solves every vds at l[i] and keeps the rows written before |
| Sweep.LookUpVgsVsGmId | look_up.py:162-178 | a normalisation error is returned as is; otherwise no combination fails in the model (name resolution cannot fail in a valid table, and the interpolator's own rejections are left out), and the result has shape (\|l\|, \|vds\|, \|vsb\|) and row [i, k, m] the VGS solved at (l[i], vds[k], vsb[m]) |

## Left out

- `importdata` and `_build_interpolator` (look_up.py:24-50) are left out. They load a MATLAB file and build scipy grid interpolators; that is file I/O and foreign code. The model starts from the table they produce: `Device.Valid` holds the four non-empty strictly increasing axes and the 17 interpolators.
- `RegularGridInterpolator` is opaque. The model does not capture its multilinear formula or its rejection of points outside the grid. Every query point is assumed to be in the domain.
- `interp1d(..., kind='cubic')` is an opaque parameter. Its own rejections are left out: fewer than four samples, repeated x values, a 0-d input, and targets outside the range of the samples it is given (outside the kept branch in the inversion, outside the gm/Id curve in the VGS solver). The model applies the interpolator to whatever samples the code hands it.
- Floating point is modelled as exact reals. IEEE infinities and NaN from dividing by zero are left out. Instead, each ratio name must satisfy `Device.RatioDefined`: its denominator is nowhere zero.
- `np.squeeze` on public results is left out. This covers `look_up_basic`'s return value and the final `np.squeeze(out)` of the swept drivers. Those drivers return the (|l|, |vds|, |vsb|) array of rows. Squeezing is modelled only where the code depends on it: the (1, n, 1, 1) sweep inside the inversion (`Inversion.VgsRow`), including the 0-d case n = 1.
- `_correct_arr` takes flat lists and 1-D arrays of numbers only. Nested lists, multi-dimensional arrays and a list holding non-numbers are left out.
- The 0-d case of `look_up_vgs_vs_gm_id` is left out. There the squeezed gm/Id curve of a single-sample VGS axis reaches `interp1d`, which rejects it. The model's opaque interpolator does not.
- The round trip `evaluate("GM_ID", solve_vgs(t)) ≈ t` is left out away from the samples: interpolation tolerance is not modelled. `Sweep.SolveAtNode` and `Inversion.InvertAtNode` prove it exactly at the sample points.
- `_in_vars` and `_info_vars` are unused; `_ignore_keys` belongs to the left-out `importdata` (look_up.py:36). The model keeps them only as the `Axis` and `Info` entries of the table.
- Sweep.LookUpVgsVsGmId: a gm/Id target outside the range of the gm/Id curve makes `interp1d` raise a `ValueError` at look_up.py:176-177 (there is no reachability check before it), and the model returns a row for it instead, because the opaque interpolator is total.
