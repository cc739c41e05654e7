/** Line and image plots: a view of a data array whose non-plotted axes are
    fixed by dimension variables. */
module Plots {
  import opened Outcomes
  import opened DimVars

  /** A plotting axis. Axis objects belong to the plotting toolkit; the model knows
      them by an identity number and, for a twin, by the primary axis it shares x with. */
  datatype Axis = Primary(id: nat) | Twin(id: nat, primary: nat)

  /** lineplot draws one trailing axis of the data as a curve, plot2d two as an image. */
  datatype Kind = Line | Image

  /** The number of data axes a plot of this kind displays. */
  function Dims(kind: Kind): nat
  {
    match kind
    case Line => 1
    case Image => 2
  }

  /** The sub-array of a plot's data selected by an index tuple. Element values are
      not modelled, so a slice is known by the tuple that selects it. */
  datatype Slice = Slice(index: seq<int>)

  /** The index tuple built from the variables' current values, in binding order. */
  function IndexTuple(vs: seq<DimVar>): (idx: seq<int>)
    reads vs
    ensures |idx| == |vs|
    ensures forall i :: 0 <= i < |vs| ==> idx[i] == vs[i].value
  {
    if vs == [] then [] else [vs[0].value] + IndexTuple(vs[1..])
  }

  /** Some bound variable reports a change. */
  predicate AnyChanged(vs: seq<DimVar>)
    reads vs
  {
    exists i :: 0 <= i < |vs| && vs[i].changed
  }

  class SlicePlot {
    const axis: Axis
    const kind: Kind
    /** Shape of the data with the plotted axes moved to the end. */
    const shape: seq<nat>
    const variables: seq<DimVar>
    /** The slice the plot currently shows. */
    var displayed: Slice

    /** One variable for every axis that is not plotted. */
    predicate Valid()
    {
      |shape| - Dims(kind) == |variables|
    }

    constructor (axis: Axis, kind: Kind, shape: seq<nat>, variables: seq<DimVar>)
      requires |shape| - Dims(kind) == |variables|
      ensures this.axis == axis && this.kind == kind
      ensures this.shape == shape && this.variables == variables
      ensures Valid() && Displays()
    {
      this.axis := axis;
      this.kind := kind;
      this.shape := shape;
      this.variables := variables;
      displayed := Slice(IndexTuple(variables));
    }

    /** get_line / get_map: the slice at the variables' current values. */
    function GetSlice(): Slice
      reads variables
    {
      Slice(IndexTuple(variables))
    }

    /** The plot shows the slice its variables currently select. */
    ghost predicate Displays()
      reads this, variables
    {
      displayed == GetSlice()
    }

    /** The early-exit scan over the bound variables' flags. */
    method VChanged() returns (b: bool)
      ensures b == AnyChanged(variables)
    {
      for i := 0 to |variables|
        invariant forall j :: 0 <= j < i ==> !variables[j].changed
      {
        if variables[i].changed {
          return true;
        }
      }
      return false;
    }

    /** What plot() leaves displayed: the current slice when a bound variable changed,
        the slice shown before otherwise. */
    ghost function Redrawn(): Slice
      reads this, variables
    {
      if AnyChanged(variables) then GetSlice() else displayed
    }

    /** Redraws with the current slice only when a bound variable changed. */
    method Plot()
      modifies this
      ensures displayed == if AnyChanged(variables) then GetSlice() else old(displayed)
      ensures displayed == old(Redrawn())
    {
      var c := VChanged();
      if c {
        displayed := GetSlice();
      }
    }
  }

  /** Construction of a lineplot (kind Line) or plot2d (kind Image): raises unless
      each non-plotted axis has exactly one variable. */
  method NewPlot(axis: Axis, kind: Kind, shape: seq<nat>, variables: seq<DimVar>)
    returns (r: Result<SlicePlot>)
    ensures r.Ok? <==> |shape| - Dims(kind) == |variables|
    ensures r.Err? ==> r.error == RankMismatch
    ensures r.Ok? ==> fresh(r.value) && r.value.Valid() && r.value.Displays()
    ensures r.Ok? ==> r.value.axis == axis && r.value.kind == kind
    ensures r.Ok? ==> r.value.shape == shape && r.value.variables == variables
  {
    if |shape| - Dims(kind) != |variables| {
      return Err(RankMismatch);
    }
    var p := new SlicePlot(axis, kind, shape, variables);
    return Ok(p);
  }
}
