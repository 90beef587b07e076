/** The device table (the dictionary the lookup functions receive), the names in it,
    and the normalisation of axis arguments. */
module Device {
  import opened Results
  import opened Seqs
  import opened Names

  /** One query point (l, vgs, vds, vsb): the trailing length-4 axis of the query grid. */
  datatype Point = Point(l: real, vgs: real, vds: real, vsb: real)

  /** A value of the table's dictionary. The grid interpolators are opaque functions. */
  datatype Entry =
    | Axis(values: seq<real>)              // 'L', 'VGS', 'VDS', 'VSB'
    | Interpolator(f: Point -> real)       // one per output variable
    | Info                                 // 'INFO', 'CORNER', 'TEMP', 'NFING'

  datatype DeviceTable = DeviceTable(entries: map<string, Entry>)

  /** The output variables for which the table holds an interpolator. */
  const OutVars: seq<string> :=
    ["W", "ID", "VT", "IGD", "IGS", "GM", "GMB", "GDS",
     "CGG", "CGS", "CGD", "CDG", "CGB", "CDD", "CSS", "STH", "SFL"]

  predicate AxisOk(t: DeviceTable, name: string)
  {
    name in t.entries && t.entries[name].Axis? &&
    |t.entries[name].values| > 0 && StrictlyIncreasing(t.entries[name].values)
  }

  /** What the import step guarantees: four non-empty increasing axes and an
      interpolator for every output variable. */
  predicate Valid(t: DeviceTable)
  {
    AxisOk(t, "L") && AxisOk(t, "VGS") && AxisOk(t, "VDS") && AxisOk(t, "VSB") &&
    forall k :: 0 <= k < |OutVars| ==>
      OutVars[k] in t.entries && t.entries[OutVars[k]].Interpolator?
  }

  /** The values of one of the four swept axes, data_dict['L'] and the like. */
  function AxisValues(t: DeviceTable, name: string): (s: seq<real>)
    requires Valid(t) && name in {"L", "VGS", "VDS", "VSB"}
    ensures |s| > 0
  {
    t.entries[name].values
  }

  /** data_dict[name] used as a callable. */
  function Lookup(t: DeviceTable, name: string): (r: Result<Point -> real>)
    ensures r.Ok? <==> name in t.entries && t.entries[name].Interpolator?
    ensures r.Ok? ==> r.value == t.entries[name].f
    ensures name !in t.entries ==> r == Err(KeyError(name))
    ensures name in t.entries && !t.entries[name].Interpolator? ==> r == Err(NotCallable(name))
  {
    if name !in t.entries then Err(KeyError(name))
    else if t.entries[name].Interpolator? then Ok(t.entries[name].f)
    else Err(NotCallable(name))
  }

  /** Every output variable can be looked up in a valid table. */
  lemma OutVarLookup(t: DeviceTable, k: nat)
    requires Valid(t) && k < |OutVars|
    ensures Lookup(t, OutVars[k]).Ok?
  {
  }

  /** The ratio "GM_ID" resolves to the gm and id interpolators. */
  lemma GmIdResolves(t: DeviceTable)
    requires Valid(t)
    ensures Separator in "GM_ID"
    ensures Split("GM_ID", Separator) == ["GM", "ID"]
    ensures Lookup(t, "GM").Ok? && Lookup(t, "ID").Ok?
    ensures RatioDefined(t, "GM_ID") ==> Resolve(t, "GM_ID").Ok?
  {
    assert "GM" == OutVars[5] && "ID" == OutVars[1];
    assert "GM_ID" == "GM" + [Separator] + "ID";
    RatioName("GM", "ID");
  }

  /** The model divides by the denominator of a ratio name only where it is non-zero:
      if the name holds the separator and its second part names an interpolator,
      that interpolator never vanishes. */
  ghost predicate RatioDefined(t: DeviceTable, name: string)
  {
    Separator in name ==>
      var parts := Split(name, Separator);
      |parts| >= 2 && parts[1] in t.entries && t.entries[parts[1]].Interpolator? ==>
        forall p: Point :: t.entries[parts[1]].f(p) != 0.0
  }

  /** For a ratio "A_B" of two names, the requirement is that B's interpolator is nowhere zero. */
  lemma RatioDefinedFor(t: DeviceTable, a: string, b: string)
    requires Separator !in a && Separator !in b && Lookup(t, b).Ok?
    ensures RatioDefined(t, a + [Separator] + b) <==> forall p: Point :: Lookup(t, b).value(p) != 0.0
  {
    RatioName(a, b);
  }

  /** The quantity a name denotes, as a function of the query point: the
      interpolator itself, or for a name holding the separator the quotient of the
      interpolators its first two parts name. This is the pointwise reference the
      vectorised evaluation is compared with. */
  function Resolve(t: DeviceTable, name: string): (r: Result<Point -> real>)
    requires RatioDefined(t, name)
    ensures Separator !in name ==> r == Lookup(t, name)
  {
    if Separator in name then
      var parts := Split(name, Separator);
      SplitSingleIff(name, Separator);
      var num :- Lookup(t, parts[0]);
      var den :- Lookup(t, parts[1]);
      Ok(p => num(p) / den(p))
    else
      Lookup(t, name)
  }

  /** A ratio name resolves when both its parts do, to their quotient; the numerator's
      error is reported first. */
  lemma ResolveRatio(t: DeviceTable, name: string, p: Point)
    requires RatioDefined(t, name) && Separator in name
    ensures |Split(name, Separator)| >= 2
    ensures var parts := Split(name, Separator);
      (Resolve(t, name).Ok? <==> Lookup(t, parts[0]).Ok? && Lookup(t, parts[1]).Ok?) &&
      (Lookup(t, parts[0]).Err? ==> Resolve(t, name) == Err(Lookup(t, parts[0]).error)) &&
      (Lookup(t, parts[0]).Ok? && Lookup(t, parts[1]).Err? ==> Resolve(t, name) == Err(Lookup(t, parts[1]).error)) &&
      (Resolve(t, name).Ok? ==> (Lookup(t, parts[1]).value(p) != 0.0 &&
         Resolve(t, name).value(p) == Lookup(t, parts[0]).value(p) / Lookup(t, parts[1]).value(p)))
  {
    SplitSingleIff(name, Separator);
  }

  /** An argument for one axis, as a Python value. */
  datatype Value =
    | Absent                       // None
    | Number(x: real)              // an int, a float or a numpy scalar
    | List(items: seq<real>)       // a flat list of numbers
    | NdArray(items: seq<real>)    // a 1-D numpy array
    | Other                        // anything else (a string, a tuple, a dict, ...)

  /** _correct_arr: an absent value is replaced by the default; an array is kept,
      a list becomes an array of the same elements in order, a number becomes a
      one-element array, anything else is an error. */
  function CorrectArr(v: Value, default: Value): (r: Result<seq<real>>)
    ensures v.Absent? ==> (r.Ok? <==> default.Number? || default.List? || default.NdArray?)
    ensures !v.Absent? ==> (r.Ok? <==> v.Number? || v.List? || v.NdArray?)
    ensures r.Err? ==> r.error == InvalidValue
    ensures (v.List? || v.NdArray?) ==> r == Ok(v.items)
    ensures v.Number? ==> r == Ok([v.x])
    ensures v.Absent? && (default.List? || default.NdArray?) ==> r == Ok(default.items)
    ensures v.Absent? && default.Number? ==> r == Ok([default.x])
  {
    var w := if v.Absent? then default else v;
    match w
    case NdArray(items) => Ok(items)
    case List(items) => Ok(items)
    case Number(x) => Ok([x])
    case _ => Err(InvalidValue)
  }

  /** Normalising an already normalised array changes nothing, whatever the default. */
  lemma CorrectArrIdempotent(v: Value, default: Value, other: Value)
    requires CorrectArr(v, default).Ok?
    ensures CorrectArr(NdArray(CorrectArr(v, default).value), other) == CorrectArr(v, default)
  {
  }

  /** Default channel length: the shortest length in the table. */
  function DefaultL(t: DeviceTable): (d: Value)
    requires Valid(t)
    ensures d == Number(AxisValues(t, "L")[0])
  {
    IncreasingBounds(AxisValues(t, "L"));
    Number(Min(AxisValues(t, "L")))
  }

  /** Default gate-source voltage: the whole VGS axis. */
  function DefaultVgs(t: DeviceTable): Value
    requires Valid(t)
  {
    NdArray(AxisValues(t, "VGS"))
  }

  /** Default drain-source voltage: half the largest VDS in the table. */
  function DefaultVds(t: DeviceTable): (d: Value)
    requires Valid(t)
    ensures var vds := AxisValues(t, "VDS"); d == Number(vds[|vds| - 1] / 2.0)
  {
    IncreasingBounds(AxisValues(t, "VDS"));
    Number(Max(AxisValues(t, "VDS")) / 2.0)
  }

  /** Default source-body voltage: zero. */
  const DefaultVsb: Value := Number(0.0)

  /** On a valid table the defaults are the first L, every VGS and half the last VDS. */
  lemma Defaults(t: DeviceTable)
    requires Valid(t)
    ensures CorrectArr(Absent, DefaultL(t)) == Ok([AxisValues(t, "L")[0]])
    ensures CorrectArr(Absent, DefaultVgs(t)) == Ok(AxisValues(t, "VGS"))
    ensures CorrectArr(Absent, DefaultVds(t)) == Ok([AxisValues(t, "VDS")[|AxisValues(t, "VDS")| - 1] / 2.0])
    ensures CorrectArr(Absent, DefaultVsb) == Ok([0.0])
  {
  }
}
