/** The manipulable figure: axes by position, dimension variables by name, and the
    plots that read them. */
module Figures {
  import opened Outcomes
  import opened DimVars
  import opened Plots
  import opened PlotSetup

  /** The variables the given plots read. */
  function VariablesOf(ps: seq<SlicePlot>): (vs: set<DimVar>)
    ensures forall p, v :: p in ps && v in p.variables ==> v in vs
  {
    set p, v | p in ps && v in p.variables :: v
  }

  /** The names list is the insertion order of the variables dictionary, and each
      variable is stored under its own name. */
  ghost predicate NamesIndexed(names: seq<string>, variables: map<string, DimVar>)
  {
    && (forall i, j :: 0 <= i < j < |names| ==> names[i] != names[j])
    && (forall k :: k in variables <==> k in names)
    && (forall k :: k in variables ==> variables[k].name == k)
  }

  /** No plot occurs twice. */
  predicate Distinct(plots: seq<SlicePlot>)
  {
    forall i, j :: 0 <= i < j < |plots| ==> plots[i] != plots[j]
  }

  /** Each plot is added once, has the rank it was built with, and reads only
      registered variables. */
  ghost predicate PlotsRegistered(plots: seq<SlicePlot>, variables: map<string, DimVar>)
  {
    && Distinct(plots)
    && (forall p :: p in plots ==> Registered(p.variables, variables))
    && (forall p :: p in plots ==> p.Valid())
  }

  /** Each of the given variables is the one registered under its name. */
  ghost predicate Registered(vs: seq<DimVar>, variables: map<string, DimVar>)
  {
    forall v :: v in vs ==> v.name in variables && variables[v.name] == v
  }

  /** The names of the given variables, in order. */
  function VarNames(vs: seq<DimVar>): (ns: seq<string>)
    ensures |ns| == |vs| && forall i :: 0 <= i < |vs| ==> ns[i] == vs[i].name
  {
    seq(|vs|, i requires 0 <= i < |vs| => vs[i].name)
  }

  /** The outcome of the spec loop with the variables replaced by their names. */
  function NamesOf(r: Result<seq<DimVar>>): Result<seq<string>>
  {
    match r
    case Ok(vs) => Ok(VarNames(vs))
    case Err(e) => Err(e)
  }

  /** The variables registered before are still registered, to the same objects. */
  ghost predicate Extends(before: map<string, DimVar>, after: map<string, DimVar>)
  {
    forall k :: k in before ==> k in after && after[k] == before[k]
  }

  /** Every plot shows the slice its variables currently select. */
  ghost predicate AllShow(ps: seq<SlicePlot>)
    reads ps, VariablesOf(ps)
  {
    forall p :: p in ps ==> p.Displays()
  }

  /** The plot is the one the plan describes, on the given axis, reading the
      registered variables of the planned names. */
  ghost predicate Built(p: SlicePlot, ax: Axis, plan: PlotPlan, variables: map<string, DimVar>)
  {
    && p.axis == ax
    && p.kind == plan.kind
    && p.shape == plan.shape
    && VarNames(p.variables) == plan.names
    && Registered(p.variables, variables)
  }

  /** The variables registered since before are among the given objects. */
  ghost predicate NewAmong(before: map<string, DimVar>, after: map<string, DimVar>, made: set<DimVar>)
  {
    forall k :: k in after && k !in before ==> after[k] in made
  }

  /** The given variables are as a new dimvar starts: value 0, unchanged, no slider. */
  ghost predicate Initialized(vs: set<DimVar>)
    reads vs
  {
    forall v :: v in vs ==> v.value == 0 && !v.changed && v.slider == null
  }

  /** Variables registered in two steps are among the objects created in either. */
  lemma NewAmongChains(before: map<string, DimVar>, mid: map<string, DimVar>, after: map<string, DimVar>,
                       created: set<DimVar>, made: set<DimVar>)
    requires NewAmong(before, mid, created) && NewAmong(mid, after, made) && Extends(mid, after)
    ensures NewAmong(before, after, created + made)
  {
  }

  /** Axis identities are handed out from a counter. */
  ghost predicate AxesNumbered(axes: map<string, Axis>, next: nat)
  {
    forall k :: k in axes ==> axes[k].id < next
  }

  /** Registering variables keeps the plots registered. */
  lemma RegisteredGrows(plots: seq<SlicePlot>, before: map<string, DimVar>, after: map<string, DimVar>)
    requires PlotsRegistered(plots, before)
    requires Extends(before, after)
    ensures PlotsRegistered(plots, after)
  {
  }

  /** The registry view of the variables: names in order, each with its bounds. */
  ghost function RegistryOf(names: seq<string>, variables: map<string, DimVar>): (r: Registry)
    ensures r.order == names && r.bounds.Keys == variables.Keys
  {
    Registry(names, map k | k in variables :: Bounds(variables[k].vmin, variables[k].vmax))
  }

  class ManLinePlot {
    var axes: map<string, Axis>
    /** Identity the next created axis receives. */
    var nextAxis: nat
    /** Variable names in insertion order: the iteration order of the variables dictionary. */
    var names: seq<string>
    var variables: map<string, DimVar>
    var plots: seq<SlicePlot>

    ghost predicate Valid()
      reads this
    {
      && NamesIndexed(names, variables)
      && PlotsRegistered(plots, variables)
      && AxesNumbered(axes, nextAxis)
    }

    /** The variables seen as a registry. */
    ghost function Reg(): (r: Registry)
      reads this
      ensures r.order == names && r.bounds.Keys == variables.Keys
    {
      RegistryOf(names, variables)
    }

    /** Every variable has its slider, as show() leaves them. */
    ghost predicate SlidersAttached()
      reads this, variables.Values
    {
      forall k :: k in variables ==> variables[k].slider != null
    }

    constructor ()
      ensures Valid() && AllShow(plots)
      ensures axes == map[] && names == [] && variables == map[] && plots == []
    {
      axes := map[];
      nextAxis := 0;
      names := [];
      variables := map[];
      plots := [];
    }

    /** _add_var: creates a variable only under a name not yet registered. */
    method AddVar(name: string, vmin: int, vmax: int)
      requires NamesIndexed(names, variables)
      modifies this`names, this`variables
      ensures NamesIndexed(names, variables)
      ensures Reg() == Register(old(Reg()), name, Bounds(vmin, vmax))
      ensures Extends(old(variables), variables)
      ensures name in variables
      ensures name !in old(variables) ==>
                fresh(variables[name]) && variables[name].value == 0 &&
                !variables[name].changed && variables[name].slider == null
    {
      if name !in variables {
        ghost var before := Reg();
        var v := new DimVar(name, vmin, vmax);
        variables := variables[name := v];
        names := names + [name];
        assert Reg().bounds == before.bounds[name := Bounds(vmin, vmax)];
      }
    }

    /** add_plot on the data shape, the variable specs and plot_ax (an int a given as [a]). */
    method AddPlot(pos: string, shape: seq<nat>, specs: seq<VarSpec>, plotAx: seq<int>, twinx: bool)
      returns (r: Outcome)
      requires Valid()
      modifies this
      decreases twinx
      ensures Valid()
      ensures var place := PlaceAxis(old(axes), pos, twinx, old(nextAxis));
        && axes == place.axes
        && nextAxis == (if place.key in old(axes) then old(nextAxis) else old(nextAxis) + 1)
      ensures var plan := PlanPlot(old(Reg()), shape, specs, plotAx);
        && Reg() == plan.reg
        && (r.Pass? <==> plan.result.Ok?)
        && (r.Fail? ==> r.error == plan.result.error)
      ensures Extends(old(variables), variables)
      ensures forall k :: k in variables && k !in old(variables) ==>
                fresh(variables[k]) && variables[k].value == 0 &&
                !variables[k].changed && variables[k].slider == null
      ensures r.Fail? ==> plots == old(plots)
      ensures r.Pass? ==> |plots| == |old(plots)| + 1 && plots[..|old(plots)|] == old(plots)
      ensures r.Pass? ==>
        var place, plan := PlaceAxis(old(axes), pos, twinx, old(nextAxis)), PlanPlot(old(Reg()), shape, specs, plotAx);
        var p := plots[|old(plots)|];
        fresh(p) && Built(p, place.axis, plan.result.value, variables) && p.Displays()
      ensures old(AllShow(plots)) ==> AllShow(plots)
    {
      var retry, ax := ChooseAxis(pos, twinx);
      if retry {
        assert PlaceAxis(axes, pos, twinx, nextAxis) == PlaceAxis(axes, pos, false, nextAxis);
        r := AddPlot(pos, shape, specs, plotAx, false);
        return;
      }
      r := AddSlicePlot(ax, shape, specs, plotAx);
    }

    /** The axis part of add_plot: reuse the axis under the key, or make a twin of the
        primary axis, or a new subplot. A twin asked for where there is no primary axis
        yet is refused here (retry) and add_plot starts over without twinx. */
    method ChooseAxis(pos: string, twinx: bool) returns (retry: bool, ax: Axis)
      requires AxesNumbered(axes, nextAxis)
      modifies this`axes, this`nextAxis
      ensures AxesNumbered(axes, nextAxis)
      ensures retry <==> twinx && AxisKey(pos, twinx) !in old(axes) && pos !in old(axes)
      ensures retry ==> axes == old(axes) && nextAxis == old(nextAxis)
      ensures !retry ==>
        var place := PlaceAxis(old(axes), pos, twinx, old(nextAxis));
        && ax == place.axis
        && axes == place.axes
        && nextAxis == (if place.key in old(axes) then old(nextAxis) else old(nextAxis) + 1)
    {
      var key := AxisKey(pos, twinx);
      retry := false;
      if key !in axes {
        if twinx && key[..|key| - 1] !in axes {
          return true, Primary(nextAxis);
        } else if twinx {
          ax := Twin(nextAxis, axes[key[..|key| - 1]].id);
        } else {
          ax := Primary(nextAxis);
        }
        axes := axes[key := ax];
        nextAxis := nextAxis + 1;
      } else {
        ax := axes[key];
      }
    }

    /** The part of add_plot after the axis is chosen: reorder the data axes, bind the
        variables and append a line plot or an image plot on the axis. */
    method AddSlicePlot(ax: Axis, shape: seq<nat>, specs: seq<VarSpec>, plotAx: seq<int>)
      returns (r: Outcome)
      requires NamesIndexed(names, variables) && PlotsRegistered(plots, variables)
      modifies this`names, this`variables, this`plots
      ensures NamesIndexed(names, variables) && PlotsRegistered(plots, variables)
      ensures var plan := PlanPlot(old(Reg()), shape, specs, plotAx);
        && Reg() == plan.reg
        && (r.Pass? <==> plan.result.Ok?)
        && (r.Fail? ==> r.error == plan.result.error)
      ensures Extends(old(variables), variables)
      ensures forall k :: k in variables && k !in old(variables) ==>
                fresh(variables[k]) && variables[k].value == 0 &&
                !variables[k].changed && variables[k].slider == null
      ensures r.Fail? ==> plots == old(plots)
      ensures r.Pass? ==> |plots| == |old(plots)| + 1 && plots[..|old(plots)|] == old(plots)
      ensures r.Pass? ==>
        var p := plots[|old(plots)|];
        fresh(p) && Built(p, ax, PlanPlot(old(Reg()), shape, specs, plotAx).result.value, variables) && p.Displays()
      ensures old(AllShow(plots)) ==> AllShow(plots)
    {
      var kind := PlotKind(|specs|, |shape|);
      var moved := MovedShape(shape, plotAx, Dims(kind));
      if moved.Err? {
        r := Fail(moved.error);
      } else {
        r := BindAndAppend(ax, kind, moved.value, specs);
      }
    }

    /** The spec loop of add_plot followed by the construction of the plot on the
        reordered shape and its registration. */
    method BindAndAppend(ax: Axis, kind: Kind, moved: seq<nat>, specs: seq<VarSpec>) returns (r: Outcome)
      requires NamesIndexed(names, variables) && PlotsRegistered(plots, variables)
      modifies this`names, this`variables, this`plots
      ensures NamesIndexed(names, variables) && PlotsRegistered(plots, variables)
      ensures Extends(old(variables), variables)
      ensures forall k :: k in variables && k !in old(variables) ==>
                fresh(variables[k]) && variables[k].value == 0 &&
                !variables[k].changed && variables[k].slider == null
      ensures var b := BindAll(old(Reg()), specs, moved, |specs|);
        && Reg() == b.reg
        && r == (if b.bound.Err? then Fail(b.bound.error)
                 else if |moved| - Dims(kind) == |specs| then Pass
                 else Fail(RankMismatch))
      ensures r.Fail? ==> plots == old(plots)
      ensures r.Pass? ==> |plots| == |old(plots)| + 1 && plots[..|old(plots)|] == old(plots)
      ensures r.Pass? ==>
        var p := plots[|old(plots)|];
        fresh(p) && p.Displays() &&
        Built(p, ax, PlotPlan(kind, moved, BindAll(old(Reg()), specs, moved, |specs|).bound.value), variables)
      ensures old(AllShow(plots)) ==> AllShow(plots)
    {
      ghost var reg0 := Reg();
      var varlist := BindVariables(specs, moved);
      RegisteredGrows(plots, old(variables), variables);
      if varlist.Err? {
        r := Fail(varlist.error);
      } else {
        BindAllOutcome(reg0, specs, moved, |specs|);
        r := AddNewPlot(ax, kind, moved, varlist.value);
      }
    }

    /** lineplot(...) or plot2d(...) on the reordered data, appended to the plots. */
    method AddNewPlot(ax: Axis, kind: Kind, moved: seq<nat>, varlist: seq<DimVar>) returns (r: Outcome)
      requires PlotsRegistered(plots, variables) && Registered(varlist, variables)
      modifies this`plots
      ensures PlotsRegistered(plots, variables)
      ensures r == if |moved| - Dims(kind) == |varlist| then Pass else Fail(RankMismatch)
      ensures r.Fail? ==> plots == old(plots)
      ensures r.Pass? ==> |plots| == |old(plots)| + 1 && plots[..|old(plots)|] == old(plots)
      ensures r.Pass? ==>
        var p := plots[|old(plots)|];
        && fresh(p) && p.Displays()
        && p.axis == ax && p.kind == kind && p.shape == moved && p.variables == varlist
      ensures old(AllShow(plots)) ==> AllShow(plots)
    {
      var made := NewPlot(ax, kind, moved, varlist);
      if made.Err? {
        r := Fail(made.error);
      } else {
        AppendPlot(made.value);
        r := Pass;
      }
    }

    /** self.plots.append: the new plot joins the plots the callback redraws. */
    method AppendPlot(p: SlicePlot)
      requires PlotsRegistered(plots, variables)
      requires p !in plots && p.Valid() && Registered(p.variables, variables)
      modifies this`plots
      ensures plots == old(plots) + [p]
      ensures PlotsRegistered(plots, variables)
      ensures old(AllShow(plots)) && p.Displays() ==> AllShow(plots)
    {
      plots := plots + [p];
      forall q | q in old(plots)
        ensures q.Displays() == old(q.Displays())
      {
      }
    }

    /** The state of the spec loop after its first n specs: the variables are BindAll's
        registry, acc is BindAll's outcome with the registered variables of its names,
        and every variable registered since orig is one of the created ones, each as a
        new dimvar starts. */
    ghost predicate Progress(reg0: Registry, specs: seq<VarSpec>, dims: seq<nat>, n: nat,
                             acc: Result<seq<DimVar>>, orig: map<string, DimVar>, created: set<DimVar>)
      reads this
    {
      && n <= |specs|
      && NamesIndexed(names, variables) && Extends(orig, variables)
      && BindAll(reg0, specs, dims, n) == Binding(Reg(), NamesOf(acc))
      && (acc.Ok? ==> Registered(acc.value, variables))
      && NewAmong(orig, variables, created)
    }

    /** The spec loop of add_plot: for each spec, resolve its name and bounds on the
        reordered shape, register the variable if its name is new, and look it up with
        the spec as key. Stops at the first spec that raises. */
    method BindVariables(specs: seq<VarSpec>, dims: seq<nat>) returns (r: Result<seq<DimVar>>)
      requires NamesIndexed(names, variables)
      modifies this`names, this`variables
      ensures NamesIndexed(names, variables) && Extends(old(variables), variables)
      ensures forall k :: k in variables && k !in old(variables) ==>
                fresh(variables[k]) && variables[k].value == 0 &&
                !variables[k].changed && variables[k].slider == null
      ensures BindAll(old(Reg()), specs, dims, |specs|) == Binding(Reg(), NamesOf(r))
      ensures r.Ok? ==> Registered(r.value, variables)
    {
      ghost var reg0 := Reg();
      var ii: nat := 0;
      var acc: Result<seq<DimVar>> := Ok([]);
      ghost var created: set<DimVar> := {};
      ghost var orig := variables;
      while ii < |specs| && acc.Ok?
        invariant Progress(reg0, specs, dims, ii, acc, orig, created)
        invariant Initialized(created) && fresh(created)
        decreases |specs| - ii
      {
        ghost var made;
        acc, made := BindNext(specs, dims, ii, acc, reg0, orig, created);
        created := created + made;
        ii := ii + 1;
      }
      if acc.Err? {
        BindAllStuck(reg0, specs, dims, ii, |specs|);
      }
      forall k | k in variables && k !in orig
        ensures fresh(variables[k]) && variables[k].value == 0
        ensures !variables[k].changed && variables[k].slider == null
      {
        assert variables[k] in created;
      }
      r := acc;
    }

    /** One iteration of the spec loop: the spec at position ii is bound and the variable
        found is appended to those bound so far. */
    method BindNext(specs: seq<VarSpec>, dims: seq<nat>, ii: nat, acc: Result<seq<DimVar>>,
                    ghost reg0: Registry, ghost orig: map<string, DimVar>, ghost created: set<DimVar>)
      returns (r: Result<seq<DimVar>>, ghost made: set<DimVar>)
      requires ii < |specs| && acc.Ok?
      requires Progress(reg0, specs, dims, ii, acc, orig, created) && Initialized(created)
      modifies this`names, this`variables
      ensures Progress(reg0, specs, dims, ii + 1, r, orig, created + made)
      ensures Initialized(created + made) && fresh(made)
    {
      assert BindAll(reg0, specs, dims, ii + 1) == BindStep(BindAll(reg0, specs, dims, ii), specs[ii], ii, dims);
      ghost var before := variables;
      r, made := BindOne(acc.value, specs[ii], ii, dims);
      NewAmongChains(orig, before, variables, created, made);
    }

    /** Resolve, register and look up one spec, and append the variable found. */
    method BindOne(bound: seq<DimVar>, spec: VarSpec, ii: nat, dims: seq<nat>)
      returns (r: Result<seq<DimVar>>, ghost made: set<DimVar>)
      requires NamesIndexed(names, variables) && Registered(bound, variables)
      modifies this`names, this`variables
      ensures NamesIndexed(names, variables) && Extends(old(variables), variables)
      ensures fresh(made) && NewAmong(old(variables), variables, made) && Initialized(made)
      ensures Binding(Reg(), NamesOf(r)) == BindStep(Binding(old(Reg()), Ok(VarNames(bound))), spec, ii, dims)
      ensures r.Ok? ==> Registered(r.value, variables)
    {
      var found;
      found, made := BindSpec(spec, ii, dims);
      match found {
        case Ok(name) =>
          var v := variables[name];
          assert VarNames(bound + [v]) == VarNames(bound) + [name];
          r := Ok(bound + [v]);
        case Err(e) =>
          r := Err(e);
      }
    }

    /** One iteration of the spec loop of add_plot. */
    method BindSpec(spec: VarSpec, ii: nat, dims: seq<nat>) returns (found: Result<string>, ghost made: set<DimVar>)
      requires NamesIndexed(names, variables)
      modifies this`names, this`variables
      ensures NamesIndexed(names, variables)
      ensures Step(Reg(), found) == SpecStep(old(Reg()), spec, ii, dims)
      ensures Extends(old(variables), variables)
      ensures forall k :: k in variables && k !in old(variables) ==>
                fresh(variables[k]) && variables[k].value == 0 &&
                !variables[k].changed && variables[k].slider == null
      ensures fresh(made) && NewAmong(old(variables), variables, made) && Initialized(made)
    {
      made := {};
      if ii >= |dims| {
        return Err(IndexOutOfRange), made;
      }
      var res := ResolveSpec(spec, dims[ii]);
      ghost var before := variables;
      AddVar(res.name, res.bounds.vmin, res.bounds.vmax);
      if res.name !in before {
        made := {variables[res.name]};
      }
      found := Lookup(spec, variables.Keys);
    }

    /** The slider callback: every variable is refreshed from its slider before any plot
        is redrawn, so each plot sees the new values of all its variables. */
    method Update()
      requires Valid() && SlidersAttached()
      modifies variables.Values, plots
      ensures Valid() && SlidersAttached()
      ensures forall k :: k in variables ==>
                && variables[k].slider == old(variables[k].slider)
                && variables[k].value == old(variables[k].slider.val)
                && variables[k].changed == (old(variables[k].slider.val) != old(variables[k].value))
      ensures forall p :: p in plots ==>
                p.displayed == if AnyChanged(p.variables) then p.GetSlice() else old(p.displayed)
      ensures old(AllShow(plots)) ==> AllShow(plots)
    {
      RefreshVariables();
      label refreshed:
      RedrawPlots();
      forall p | p in plots
        ensures p.displayed == if AnyChanged(p.variables) then p.GetSlice() else old(p.displayed)
      {
        assert p.displayed == old@refreshed(p.Redrawn());
      }
      if old(AllShow(plots)) {
        forall p | p in plots
          ensures p.Displays()
        {
          if !AnyChanged(p.variables) {
            forall i | 0 <= i < |p.variables|
              ensures p.variables[i].value == old(p.variables[i].value)
            {
              assert p.variables[i] == variables[p.variables[i].name];
            }
            assert IndexTuple(p.variables) == old(IndexTuple(p.variables));
          }
        }
      }
    }

    /** The first loop of the callback: get_changed on every variable, in insertion order. */
    method RefreshVariables()
      requires Valid() && SlidersAttached()
      modifies variables.Values
      ensures forall k :: k in variables ==>
                && variables[k].slider == old(variables[k].slider)
                && variables[k].value == old(variables[k].slider.val)
                && variables[k].changed == (old(variables[k].slider.val) != old(variables[k].value))
    {
      var ns, vm := names, variables;
      var vs := seq(|ns|, j requires 0 <= j < |ns| && ns[j] in vm => vm[ns[j]]);
      assert forall j, k :: 0 <= j < k < |vs| ==> vs[j] != vs[k] by {
        forall j, k | 0 <= j < k < |vs| ensures vs[j] != vs[k] {
          assert vs[j].name == names[j] && vs[k].name == names[k];
        }
      }
      for i := 0 to |names|
        invariant forall j :: 0 <= j < i ==>
                    && vs[j].slider == old(vs[j].slider)
                    && vs[j].value == old(vs[j].slider.val)
                    && vs[j].changed == (old(vs[j].slider.val) != old(vs[j].value))
        invariant forall j :: i <= j < |vs| ==>
                    && vs[j].slider == old(vs[j].slider)
                    && vs[j].value == old(vs[j].value)
                    && vs[j].changed == old(vs[j].changed)
      {
        vs[i].GetChanged();
      }
      forall k | k in variables
        ensures exists j :: 0 <= j < |vs| && vs[j] == variables[k]
      {
        var j :| 0 <= j < |names| && names[j] == k;
        assert vs[j] == variables[k];
      }
    }

    /** The second loop of the callback: plot() on every plot, in registration order. */
    method RedrawPlots()
      requires Distinct(plots)
      modifies plots
      ensures forall p :: p in plots ==> p.displayed == old(p.Redrawn())
    {
      for i := 0 to |plots|
        invariant forall j :: 0 <= j < i ==> plots[j].displayed == old(plots[j].Redrawn())
        invariant forall j :: i <= j < |plots| ==> plots[j].displayed == old(plots[j].displayed)
      {
        plots[i].Plot();
      }
    }
  }
}
