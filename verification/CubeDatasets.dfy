/** From an opened cube to the dataset that is served
    (infra/cube-server/stac_higher_cube_server/datasets.py). */
module CubeDatasets {
  import opened Basics

  datatype Attr = Text(s: string) | Number(x: real) | OtherAttr

  datatype Variable = Variable(dims: set<string>, attrs: map<string, Attr>, encoding: map<string, Attr>, data: seq<real>)

  // `dataVars` in order; `coords` are variables too.
  datatype Dataset = Dataset(
    dataVars: seq<string>, coords: set<string>, vars: map<string, Variable>, sizes: map<string, nat>, attrs: map<string, string>)

  // Python truthiness of an attribute that may be missing.
  predicate Present(a: Option<Attr>) {
    a.Some? && (a.value.Text? ==> a.value.s != "") && (a.value.Number? ==> a.value.x != 0.0)
  }

  // `decode_coords` moves a variable's grid mapping from its attributes to its encoding.
  function GridMappingOf(v: Variable): Option<string> {
    var own := Lookup(v.attrs, "grid_mapping");
    var mapping := if Present(own) then own else Lookup(v.encoding, "grid_mapping");
    if mapping.Some? && mapping.value.Text? then Some(mapping.value.s) else None
  }

  // The first of `names` whose grid mapping is one of the dataset's variables.
  function FirstMapping(names: seq<string>, vars: map<string, Variable>): (r: Option<string>)
    ensures r.Some? ==> r.value in vars
  {
    if names == [] then None
    else
      var mine := if names[0] in vars then GridMappingOf(vars[names[0]]) else None;
      if mine.Some? && mine.value in vars then mine else FirstMapping(names[1..], vars)
  }

  function DimsOf(names: seq<string>, vars: map<string, Variable>): set<string> {
    set n, d | n in names && n in vars && d in vars[n].dims :: d
  }

  // `raw[keep]`: the named variables and the coordinates along their dimensions.
  function Select(raw: Dataset, keep: seq<string>): Dataset {
    var dims := DimsOf(keep, raw.vars);
    var coords := set c | c in raw.coords && c in raw.vars && (c in keep || raw.vars[c].dims <= dims);
    Dataset(Filter(keep, k => k !in raw.coords), coords,
            map n | n in raw.vars && (n in keep || n in coords) :: raw.vars[n],
            map d | d in raw.sizes && d in dims :: raw.sizes[d], raw.attrs)
  }

  function Scaled(v: Variable, h: real): Variable {
    Variable(v.dims, v.attrs["units" := Text("m")], map[], Map(v.data, x => x * h))
  }

  // Scan angles in radians under a geostationary mapping.
  predicate InScanAngles(ds: Dataset) {
    var mapping := FirstMapping(ds.dataVars, ds.vars);
    && mapping.Some? && "x" in ds.coords && "y" in ds.coords && "x" in ds.vars && "y" in ds.vars
    && Lookup(ds.vars[mapping.value].attrs, "grid_mapping_name") == Some(Text("geostationary"))
    && Lookup(ds.vars["x"].attrs, "units") == Some(Text("rad"))
  }

  // `float(attrs["perspective_point_height"])`
  function Height(ds: Dataset): Result<real, string>
    requires InScanAngles(ds)
  {
    var height: Option<Attr> := Lookup(ds.vars[FirstMapping(ds.dataVars, ds.vars).value].attrs, "perspective_point_height");
    match height
    case None => Err("KeyError")
    case Some(Number(h)) => Ok(h)
    case Some(Text(_)) => Err("ValueError")
    case Some(OtherAttr) => Err("TypeError")
  }

  // `rescale_geostationary`: a mapping without a usable height is an error.
  function Rescale(ds: Dataset): Result<Dataset, string> {
    if !InScanAngles(ds) then Ok(ds)
    else
      match Height(ds)
      case Err(e) => Err(e)
      case Ok(h) => Ok(ds.(vars := ds.vars["x" := Scaled(ds.vars["x"], h)]["y" := Scaled(ds.vars["y"], h)]))
  }

  function Kept(raw: Dataset, variables: seq<string>): seq<string> {
    Filter(variables, v => v in raw.dataVars)
  }

  function KeptWithMapping(raw: Dataset, variables: seq<string>): seq<string> {
    var keep := Kept(raw, variables);
    var mapping := FirstMapping(keep, raw.vars);
    if mapping.Some? && mapping.value !in keep then keep + [mapping.value] else keep
  }

  function Prepare(raw: Dataset, variables: seq<string>, appendDim: string, cid: string, snapshot: string): Result<Dataset, string> {
    match Rescale(Select(raw, KeptWithMapping(raw, variables)))
    case Err(e) => Err(e)
    case Ok(ds) => Ok(ds.(attrs := ds.attrs["_xpublish_id" := cid + ":" + snapshot]["_cube_append_dim" := appendDim]))
  }

  /** Rescaling twice is rescaling once: the rescaled axes are in metres. */
  lemma {:induction false} RescaleIdempotent(ds: Dataset)
    requires Rescale(ds).Ok?
    ensures Rescale(Rescale(ds).value) == Rescale(ds)
  {
    if InScanAngles(ds) {
      var r := Rescale(ds).value;
      assert r.vars["x"].attrs["units"] == Text("m");
    }
  }

  // The variable names this grid mapping: in its attributes or, when there is none there,
  // in its encoding.
  ghost predicate NamesMapping(v: Variable, mapping: string) {
    var own := Lookup(v.attrs, "grid_mapping");
    if own in {None, Some(Text("")), Some(Number(0.0))} then Lookup(v.encoding, "grid_mapping") == Some(Text(mapping))
    else own == Some(Text(mapping))
  }

  // `mapping` is one of the variables, and the first of `names` to name one of them names it.
  ghost predicate IsFirstMapping(names: seq<string>, vars: map<string, Variable>, mapping: string) {
    && mapping in vars
    && exists i :: 0 <= i < |names| && names[i] in vars && NamesMapping(vars[names[i]], mapping)
         && forall j, m :: 0 <= j < i && names[j] in vars && m in vars ==> !NamesMapping(vars[names[j]], m)
  }

  lemma {:induction false} GridMappingExactly(v: Variable, mapping: string)
    ensures GridMappingOf(v) == Some(mapping) <==> NamesMapping(v, mapping)
  {
  }

  lemma {:induction false} FirstMappingExactly(names: seq<string>, vars: map<string, Variable>, mapping: string)
    ensures FirstMapping(names, vars) == Some(mapping) <==> IsFirstMapping(names, vars, mapping)
  {
    if names != [] {
      FirstMappingExactly(names[1..], vars, mapping);
      forall m
        ensures names[0] in vars ==> (GridMappingOf(vars[names[0]]) == Some(m) <==> NamesMapping(vars[names[0]], m))
      {
        if names[0] in vars {
          GridMappingExactly(vars[names[0]], m);
        }
      }
      var named := exists m :: m in vars && names[0] in vars && NamesMapping(vars[names[0]], m);
      if IsFirstMapping(names, vars, mapping) {
        var i :| 0 <= i < |names| && names[i] in vars && NamesMapping(vars[names[i]], mapping)
          && forall j, m :: 0 <= j < i && names[j] in vars && m in vars ==> !NamesMapping(vars[names[j]], m);
        if i > 0 {
          assert names[1..][i - 1] == names[i];
          assert forall j :: 0 <= j < i - 1 ==> names[1..][j] == names[j + 1];
        }
      }
      if !named && IsFirstMapping(names[1..], vars, mapping) {
        FirstMappingLater(names, vars, mapping);
      }
    }
  }

  lemma {:induction false} FirstMappingLater(names: seq<string>, vars: map<string, Variable>, mapping: string)
    requires names != [] && IsFirstMapping(names[1..], vars, mapping)
    requires forall m :: m in vars && names[0] in vars ==> !NamesMapping(vars[names[0]], m)
    ensures IsFirstMapping(names, vars, mapping)
  {
    var i :| 0 <= i < |names[1..]| && names[1..][i] in vars && NamesMapping(vars[names[1..][i]], mapping)
      && forall j, m :: 0 <= j < i && names[1..][j] in vars && m in vars ==> !NamesMapping(vars[names[1..][j]], m);
    assert names[i + 1] == names[1..][i];
    forall j, m | 0 <= j < i + 1 && names[j] in vars && m in vars
      ensures !NamesMapping(vars[names[j]], m)
    {
      assert j > 0 ==> names[1..][j - 1] == names[j];
    }
  }

  // The dataset is in radians under this geostationary mapping.
  ghost predicate InRadians(ds: Dataset, mapping: string) {
    && IsFirstMapping(ds.dataVars, ds.vars, mapping)
    && "x" in ds.coords && "y" in ds.coords && "x" in ds.vars && "y" in ds.vars
    && Lookup(ds.vars[mapping].attrs, "grid_mapping_name") == Some(Text("geostationary"))
    && Lookup(ds.vars["x"].attrs, "units") == Some(Text("rad"))
  }

  // An axis with each value multiplied by the height once, in metres.
  ghost predicate InMetres(axis: Variable, before: Variable, h: real) {
    && axis.dims == before.dims && axis.attrs == before.attrs["units" := Text("m")] && axis.encoding == map[]
    && |axis.data| == |before.data| && forall i :: 0 <= i < |before.data| ==> axis.data[i] == before.data[i] * h
  }

  // The dataset with both axes so, and nothing else changed.
  ghost predicate Projected(ds: Dataset, before: Dataset, h: real) {
    && "x" in before.vars && "y" in before.vars && ds == before.(vars := ds.vars) && ds.vars.Keys == before.vars.Keys
    && InMetres(ds.vars["x"], before.vars["x"], h) && InMetres(ds.vars["y"], before.vars["y"], h)
    && forall v :: v in ds.vars && v !in {"x", "y"} ==> ds.vars[v] == before.vars[v]
  }

  /** Exactly a dataset in radians under a geostationary mapping is rescaled, by that
      mapping's height; without a usable height it is refused. */
  lemma {:induction false} RescaledExactly(ds: Dataset, mapping: string)
    ensures (forall m :: !InRadians(ds, m)) ==> Rescale(ds) == Ok(ds)
    ensures InRadians(ds, mapping) ==>
              var height: Option<Attr> := Lookup(ds.vars[mapping].attrs, "perspective_point_height");
              match height
              case Some(Number(h)) => Rescale(ds).Ok? && Projected(Rescale(ds).value, ds, h)
              case None => Rescale(ds) == Err("KeyError")
              case Some(Text(_)) => Rescale(ds) == Err("ValueError")
              case Some(OtherAttr) => Rescale(ds) == Err("TypeError")
  {
    forall m
      ensures FirstMapping(ds.dataVars, ds.vars) == Some(m) <==> IsFirstMapping(ds.dataVars, ds.vars, m)
    {
      FirstMappingExactly(ds.dataVars, ds.vars, m);
    }
    assert forall m :: InRadians(ds, m) <==> InScanAngles(ds) && FirstMapping(ds.dataVars, ds.vars) == Some(m);
    if InScanAngles(ds) {
      assert InRadians(ds, FirstMapping(ds.dataVars, ds.vars).value);
    }
  }

  // An xarray dataset: data variables and coordinates are variables, and no name is both.
  ghost predicate WellFormedDataset(ds: Dataset) {
    forall v :: v in ds.dataVars ==> v in ds.vars && v !in ds.coords
  }

  // Kept for the sink: a wanted data variable, or the grid mapping the first of them names.
  ghost predicate IsKept(raw: Dataset, variables: seq<string>, name: string) {
    (name in variables && name in raw.dataVars) || IsFirstMapping(Kept(raw, variables), raw.vars, name)
  }

  // A dimension of something kept.
  ghost predicate IsKeptDim(raw: Dataset, variables: seq<string>, d: string) {
    exists name :: IsKept(raw, variables, name) && name in raw.vars && d in raw.vars[name].dims
  }

  lemma {:induction false} KeptExactly(raw: Dataset, variables: seq<string>, name: string)
    ensures name in KeptWithMapping(raw, variables) <==> IsKept(raw, variables, name)
  {
    FirstMappingExactly(Kept(raw, variables), raw.vars, name);
  }

  lemma {:induction false} KeptDimsExactly(raw: Dataset, variables: seq<string>, d: string)
    ensures d in DimsOf(KeptWithMapping(raw, variables), raw.vars) <==> IsKeptDim(raw, variables, d)
  {
    forall name
      ensures name in KeptWithMapping(raw, variables) <==> IsKept(raw, variables, name)
    {
      KeptExactly(raw, variables, name);
    }
  }

  // The data variables: the wanted ones the cube has, in the wanted order, and last their
  // grid mapping when it is a data variable of its own.
  ghost predicate DataVarsAre(raw: Dataset, variables: seq<string>, dataVars: seq<string>) {
    var kept := Kept(raw, variables);
    || (dataVars == kept && forall m :: IsFirstMapping(kept, raw.vars, m) ==> m in kept || m in raw.coords)
    || exists m :: IsFirstMapping(kept, raw.vars, m) && m !in kept && m !in raw.coords && dataVars == kept + [m]
  }

  lemma {:induction false} SelectedDataVars(raw: Dataset, variables: seq<string>)
    requires WellFormedDataset(raw)
    ensures DataVarsAre(raw, variables, Select(raw, KeptWithMapping(raw, variables)).dataVars)
  {
    var keep, kept := KeptWithMapping(raw, variables), Kept(raw, variables);
    var isData := k => k !in raw.coords;
    FilterAll(kept, isData);
    forall m
      ensures FirstMapping(kept, raw.vars) == Some(m) <==> IsFirstMapping(kept, raw.vars, m)
    {
      FirstMappingExactly(kept, raw.vars, m);
    }
    if keep != kept {
      var m := FirstMapping(kept, raw.vars).value;
      FilterLast(kept, m, isData);
      assert IsFirstMapping(kept, raw.vars, m);
    }
    assert Select(raw, keep).dataVars == Filter(keep, isData);
  }

  // What is selected: the kept variables and the coordinates along their dimensions, as they are.
  ghost predicate IsSelection(raw: Dataset, variables: seq<string>, ds: Dataset) {
    && DataVarsAre(raw, variables, ds.dataVars) && ds.attrs == raw.attrs
    && (forall v :: v in ds.vars <==>
          v in raw.vars && (IsKept(raw, variables, v) || (v in raw.coords && forall d :: d in raw.vars[v].dims ==> IsKeptDim(raw, variables, d))))
    && (forall v :: v in ds.vars ==> ds.vars[v] == raw.vars[v])
    && (forall c :: c in ds.coords <==> c in ds.vars && c in raw.coords)
    && (forall d :: d in ds.sizes <==> d in raw.sizes && IsKeptDim(raw, variables, d))
    && (forall d :: d in ds.sizes ==> ds.sizes[d] == raw.sizes[d])
  }

  lemma {:induction false} SelectedExactly(raw: Dataset, variables: seq<string>)
    requires WellFormedDataset(raw)
    ensures IsSelection(raw, variables, Select(raw, KeptWithMapping(raw, variables)))
  {
    SelectedDataVars(raw, variables);
    forall name
      ensures name in KeptWithMapping(raw, variables) <==> IsKept(raw, variables, name)
    {
      KeptExactly(raw, variables, name);
    }
    forall d
      ensures d in DimsOf(KeptWithMapping(raw, variables), raw.vars) <==> IsKeptDim(raw, variables, d)
    {
      KeptDimsExactly(raw, variables, d);
    }
  }

  /** What is served: the selection, rescaled, with the snapshot and the append dimension as
      tags; it is refused only when the selection cannot be rescaled. */
  lemma {:induction false} PreparedServesTheWanted(raw: Dataset, variables: seq<string>, appendDim: string, cid: string, snapshot: string)
    requires WellFormedDataset(raw)
    ensures exists selected :: IsSelection(raw, variables, selected) &&
              match Rescale(selected)
              case Err(e) => Prepare(raw, variables, appendDim, cid, snapshot) == Err(e)
              case Ok(ds) => Prepare(raw, variables, appendDim, cid, snapshot)
                             == Ok(ds.(attrs := raw.attrs["_xpublish_id" := cid + ":" + snapshot]["_cube_append_dim" := appendDim]))
  {
    var selected := Select(raw, KeptWithMapping(raw, variables));
    SelectedExactly(raw, variables);
    RescaleFrame(selected);
  }

  lemma {:induction false} RescaleFrame(ds: Dataset)
    ensures Rescale(ds).Ok? ==> Rescale(ds).value == ds.(vars := Rescale(ds).value.vars)
  {
  }
}
