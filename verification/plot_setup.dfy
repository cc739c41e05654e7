/** The rules add_plot follows before it builds a plot: where the plot goes, how the
    data's axes are reordered, and which dimension variables it binds. */
module PlotSetup {
  import opened Outcomes
  import opened Plots

  // ---------------------------------------------------------------- axis placement

  /** The dictionary key of an axis: its position as text, with 'y' appended for a twin. */
  function AxisKey(pos: string, twinx: bool): string
  {
    pos + (if twinx then "y" else "")
  }

  /** Where a plot lands: the key it is filed under, its axis, and the axis dictionary afterwards. */
  datatype Placement = Placement(key: string, axis: Axis, axes: map<string, Axis>)

  /** Finds or creates the axis for a plot; next is the identity a newly created axis receives.
      A twin requested before its primary exists is placed as a primary instead. */
  function PlaceAxis(axes: map<string, Axis>, pos: string, twinx: bool, next: nat): (r: Placement)
    decreases twinx
    ensures r.axes == axes[r.key := r.axis]
    ensures r.key in axes ==> r.axis == axes[r.key]
    ensures !twinx ==> r.key == pos
    ensures !twinx && pos !in axes ==> r.axis == Primary(next)
    ensures twinx && pos + "y" in axes ==> r.key == pos + "y"
    ensures twinx && pos + "y" !in axes && pos in axes ==>
              r.key == pos + "y" && r.axis == Twin(next, axes[pos].id)
    ensures twinx && pos + "y" !in axes && pos !in axes ==>
              r.key == pos && r.axis == Primary(next)
  {
    var key := AxisKey(pos, twinx);
    if key !in axes then
      if twinx && key[..|key| - 1] !in axes then
        PlaceAxis(axes, pos, false, next)
      else if twinx then
        var ax := Twin(next, axes[key[..|key| - 1]].id);
        Placement(key, ax, axes[key := ax])
      else
        Placement(key, Primary(next), axes[key := Primary(next)])
    else
      Placement(key, axes[key], axes)
  }

  // ---------------------------------------------------------------- axis reordering

  /** The plot kind: an image exactly when two axes are left without a variable. */
  function PlotKind(nvars: nat, ndim: nat): Kind
  {
    if nvars == ndim - 2 then Image else Line
  }

  /** numpy's normalisation of a possibly negative axis number. */
  function Normalize(axis: int, n: nat): int
  {
    if axis < 0 then axis + n else axis
  }

  predicate ValidAxis(axis: int, n: nat)
  {
    -(n as int) <= axis < n
  }

  function RemoveAt(s: seq<nat>, i: nat): (r: seq<nat>)
    requires i < |s|
    ensures |r| == |s| - 1
    ensures multiset(r) + multiset{s[i]} == multiset(s)
  {
    assert s == s[..i] + [s[i]] + s[i + 1..];
    s[..i] + s[i + 1..]
  }

  /** The shape with axis a moved to the end; the other axes keep their order. */
  function MoveLast(shape: seq<nat>, a: nat): (r: seq<nat>)
    requires a < |shape|
    ensures |r| == |shape| && multiset(r) == multiset(shape)
    ensures r[|shape| - 1] == shape[a]
    ensures forall i :: 0 <= i < |shape| - 1 ==> r[i] == shape[if i < a then i else i + 1]
  {
    RemoveAt(shape, a) + [shape[a]]
  }

  /** The shape with axes a and b moved to the last two positions, a first; the other
      axes keep their order. */
  function MoveLastTwo(shape: seq<nat>, a: nat, b: nat): (r: seq<nat>)
    requires a < |shape| && b < |shape| && a != b
    ensures |r| == |shape| && multiset(r) == multiset(shape)
    ensures r[|shape| - 2] == shape[a] && r[|shape| - 1] == shape[b]
  {
    var t := MoveLast(shape, a);
    var b' := if b < a then b else b - 1;
    assert t[b'] == shape[b];
    var r := MoveLast(t, b');
    r
  }

  /** The axis at position i after moving axis a to the end. */
  lemma MoveLastAt(shape: seq<nat>, a: nat, i: nat)
    requires a < |shape| && i < |shape| - 1
    ensures MoveLast(shape, a)[i] == shape[if i < a then i else i + 1]
  {
  }

  /** Moving two axes to the end keeps the remaining axes in their order. */
  lemma MoveLastTwoKeepsOrder(shape: seq<nat>, a: nat, b: nat, i: nat)
    requires a < |shape| && b < |shape| && a != b && i < |shape| - 2
    ensures var lo, hi := if a < b then a else b, if a < b then b else a;
      MoveLastTwo(shape, a, b)[i] == shape[if i < lo then i else if i < hi - 1 then i + 1 else i + 2]
  {
    var t := MoveLast(shape, a);
    var b' := if b < a then b else b - 1;
    var j := if i < b' then i else i + 1;
    var k := if j < a then j else j + 1;
    if a < b {
      assert k == (if i < a then i else if i < b - 1 then i + 1 else i + 2);
    } else {
      assert k == (if i < b then i else if i < a - 1 then i + 1 else i + 2);
    }
    MoveLastAt(t, b', i);
    MoveLastAt(shape, a, j);
  }

  /** The source axes of np.moveaxis are in range and name distinct axes. */
  predicate AxesAccepted(source: seq<int>, n: nat)
  {
    && (forall k :: 0 <= k < |source| ==> ValidAxis(source[k], n))
    && (forall j, k :: 0 <= j < k < |source| ==> Normalize(source[j], n) != Normalize(source[k], n))
  }

  /** The shape after np.moveaxis moves the source axes to the last count positions
      (count is 1 for a line, 2 for an image): a permutation of the shape that puts the
      plotted axes last, in the order given, and keeps the others in their order. */
  function MovedShape(shape: seq<nat>, source: seq<int>, count: nat): (r: Result<seq<nat>>)
    requires count == 1 || count == 2
    ensures r.Ok? <==> |source| == count && AxesAccepted(source, |shape|)
    ensures r.Err? ==> r.error == BadAxis
    ensures r.Ok? ==> |r.value| == |shape| && multiset(r.value) == multiset(shape)
    ensures r.Ok? ==> forall k :: 0 <= k < count ==>
              r.value[|shape| - count + k] == shape[Normalize(source[k], |shape|)]
    ensures r.Ok? && count == 1 ==>
              r.value == MoveLast(shape, Normalize(source[0], |shape|))
    ensures r.Ok? && count == 2 ==>
              r.value == MoveLastTwo(shape, Normalize(source[0], |shape|), Normalize(source[1], |shape|))
  {
    var n := |shape|;
    if !AxesAccepted(source, n) then
      Err(BadAxis)
    else if |source| != count then
      Err(BadAxis)
    else if count == 1 then
      Ok(MoveLast(shape, Normalize(source[0], n)))
    else
      Ok(MoveLastTwo(shape, Normalize(source[0], n), Normalize(source[1], n)))
  }

  // ---------------------------------------------------------------- variable specs

  /** How a dimension variable is requested: a bare name, a list [name, ...] whose
      further elements are bounds, or any other object, which may be hashable (a tuple,
      an int) or not (a dict, a set, an array). A list names its variable by a string. */
  datatype VarSpec = Name(name: string) | List(name: string, rest: seq<int>) | Other(hashable: bool)

  /** Whether the spec itself can be used as a dictionary key. */
  predicate Hashable(spec: VarSpec)
  {
    match spec
    case Name(_) => true
    case List(_, _) => false
    case Other(h) => h
  }

  datatype Bounds = Bounds(vmin: int, vmax: int)

  datatype Resolved = Resolved(name: string, bounds: Bounds)

  /** The name a spec registers: the empty name for a spec that is neither a list nor a string. */
  function SpecName(spec: VarSpec): string
  {
    match spec
    case Name(n) => n
    case List(n, _) => n
    case Other(_) => ""
  }

  /** The name and bounds a spec at an axis of the given extent registers. */
  function ResolveSpec(spec: VarSpec, extent: nat): (r: Resolved)
    ensures r.name == SpecName(spec)
    ensures !spec.List? ==> r.bounds == Bounds(0, extent - 1)
    ensures spec.List? && |spec.rest| == 1 ==> r.bounds == Bounds(spec.rest[0], extent - 1)
    ensures spec.List? && |spec.rest| == 2 ==> r.bounds == Bounds(0, spec.rest[1])
    ensures spec.List? && |spec.rest| != 1 && |spec.rest| != 2 ==> r.bounds == Bounds(0, extent - 1)
  {
    var dflt := Bounds(0, extent - 1);
    match spec
    case List(name, rest) =>
      var withMin := if |rest| == 1 then dflt.(vmin := rest[0]) else dflt;
      var withMax := if |rest| == 2 then withMin.(vmax := rest[1]) else withMin;
      Resolved(name, withMax)
    case Name(name) => Resolved(name, dflt)
    case Other(_) => Resolved("", dflt)
  }

  /** The dictionary lookup made with the spec itself as key. The keys are strings, so
      a hashable spec other than a string is never among them. */
  function Lookup(spec: VarSpec, keys: set<string>): (r: Result<string>)
    ensures r.Ok? <==> spec.Name? && spec.name in keys
    ensures r.Ok? ==> r.value == spec.name
    ensures !Hashable(spec) ==> r == Err(Unhashable)
    ensures Hashable(spec) && r.Err? ==> r == Err(KeyMissing)
  {
    match spec
    case Name(n) => if n in keys then Ok(n) else Err(KeyMissing)
    case List(_, _) => Err(Unhashable)
    case Other(h) => if h then Err(KeyMissing) else Err(Unhashable)
  }

  // ---------------------------------------------------------------- the variable registry

  /** The figure's variables by name, in insertion order, with their bounds. */
  datatype Registry = Registry(order: seq<string>, bounds: map<string, Bounds>) {
    predicate WellFormed()
    {
      && (forall i, j :: 0 <= i < j < |order| ==> order[i] != order[j])
      && bounds.Keys == set k | k in order
    }
  }

  /** _add_var: a variable is created only under a name not yet taken. */
  function Register(reg: Registry, name: string, b: Bounds): (r: Registry)
    ensures reg.WellFormed() ==> r.WellFormed()
    ensures r.bounds.Keys == reg.bounds.Keys + {name}
    ensures reg.order <= r.order
    ensures forall k :: k in reg.bounds ==> r.bounds[k] == reg.bounds[k]
    ensures name !in reg.bounds ==> r.bounds[name] == b
  {
    if name in reg.bounds then reg
    else Registry(reg.order + [name], reg.bounds[name := b])
  }

  /** The registry while specs are processed, and either the names bound so far or
      the error that stopped the processing. */
  datatype Binding = Binding(reg: Registry, bound: Result<seq<string>>)

  /** The registry after one spec is processed, and the name the lookup found or the error raised. */
  datatype Step = Step(reg: Registry, found: Result<string>)

  /** One iteration of the spec loop, for the spec at position ii of the reordered shape:
      read the extent of axis ii, resolve, register, look up with the spec as key. */
  function SpecStep(reg: Registry, spec: VarSpec, ii: nat, shape: seq<nat>): (s: Step)
    ensures s.found.Ok? ==> s.found.value in s.reg.bounds
  {
    if ii >= |shape| then Step(reg, Err(IndexOutOfRange))
    else
      var res := ResolveSpec(spec, shape[ii]);
      var reg' := Register(reg, res.name, res.bounds);
      Step(reg', Lookup(spec, reg'.bounds.Keys))
  }

  /** The loop's state after one more iteration; nothing happens once a spec has raised. */
  function BindStep(b: Binding, spec: VarSpec, ii: nat, shape: seq<nat>): Binding
  {
    if b.bound.Err? then b
    else
      var s := SpecStep(b.reg, spec, ii, shape);
      match s.found
      case Ok(name) => Binding(s.reg, Ok(b.bound.value + [name]))
      case Err(e) => Binding(s.reg, Err(e))
  }

  /** The first n iterations of the spec loop. */
  function BindAll(reg: Registry, specs: seq<VarSpec>, shape: seq<nat>, n: nat): Binding
    requires n <= |specs|
  {
    if n == 0 then Binding(reg, Ok([]))
    else BindStep(BindAll(reg, specs, shape, n - 1), specs[n - 1], n - 1, shape)
  }

  /** Registration only adds: a variable registered earlier keeps its bounds. */
  lemma {:induction false} BindAllGrows(reg: Registry, specs: seq<VarSpec>, shape: seq<nat>, m: nat, n: nat)
    requires m <= n <= |specs|
    ensures var before, after := BindAll(reg, specs, shape, m).reg, BindAll(reg, specs, shape, n).reg;
      && before.bounds.Keys <= after.bounds.Keys
      && (forall k :: k in before.bounds ==> after.bounds[k] == before.bounds[k])
      && before.order <= after.order
      && (before.WellFormed() ==> after.WellFormed())
    decreases n
  {
    if m < n {
      BindAllGrows(reg, specs, shape, m, n - 1);
    }
  }

  /** Once a spec raised, later specs are not processed. */
  lemma {:induction false} BindAllStuck(reg: Registry, specs: seq<VarSpec>, shape: seq<nat>, m: nat, n: nat)
    requires m <= n <= |specs|
    requires BindAll(reg, specs, shape, m).bound.Err?
    ensures BindAll(reg, specs, shape, n) == BindAll(reg, specs, shape, m)
    decreases n
  {
    if m < n {
      BindAllStuck(reg, specs, shape, m, n - 1);
    }
  }

  /** The loop succeeds exactly when every spec is a bare name with an axis to index,
      and then binds the named variables in order. */
  lemma {:induction false} BindAllOutcome(reg: Registry, specs: seq<VarSpec>, shape: seq<nat>, n: nat)
    requires n <= |specs|
    ensures var b := BindAll(reg, specs, shape, n);
      b.bound.Ok? <==> n <= |shape| && forall i :: 0 <= i < n ==> specs[i].Name?
    ensures var b := BindAll(reg, specs, shape, n);
      b.bound.Ok? ==>
        && |b.bound.value| == n
        && forall i :: 0 <= i < n ==> b.bound.value[i] == specs[i].name && specs[i].name in b.reg.bounds
  {
    if n > 0 {
      BindAllOutcome(reg, specs, shape, n - 1);
    }
  }

  /** The first spec that is not a bare name makes the loop raise; if it had an axis to
      index it was registered before the lookup failed. */
  lemma {:induction false} BindAllFirstFailure(reg: Registry, specs: seq<VarSpec>, shape: seq<nat>, n: nat, i: nat)
    requires i < n <= |specs|
    requires forall j :: 0 <= j < i ==> specs[j].Name?
    requires !specs[i].Name?
    ensures var b := BindAll(reg, specs, shape, n);
      && b.bound.Err?
      && (i < |shape| ==> b.bound.error == (if Hashable(specs[i]) then KeyMissing else Unhashable)
                          && SpecName(specs[i]) in b.reg.bounds)
      && (i >= |shape| ==> b.bound.error == IndexOutOfRange)
  {
    if i < |shape| {
      BindAllOutcome(reg, specs, shape, i);
      BindAllStuck(reg, specs, shape, i + 1, n);
    } else {
      BindAllOutcome(reg, specs, shape, |shape|);
      BindAllStuck(reg, specs, shape, |shape| + 1, n);
    }
  }

  /** A spec whose name is new when it is reached registers the bounds it resolves to,
      and later specs of the same name leave them alone. */
  lemma {:induction false} BindAllRegistersNew(reg: Registry, specs: seq<VarSpec>, shape: seq<nat>, n: nat, i: nat)
    requires i < n <= |specs| && i < |shape|
    requires BindAll(reg, specs, shape, i).bound.Ok?
    requires SpecName(specs[i]) !in BindAll(reg, specs, shape, i).reg.bounds
    ensures var after := BindAll(reg, specs, shape, n).reg;
      SpecName(specs[i]) in after.bounds && after.bounds[SpecName(specs[i])] == ResolveSpec(specs[i], shape[i]).bounds
  {
    BindAllGrows(reg, specs, shape, i + 1, n);
  }

  // ---------------------------------------------------------------- the whole plan

  /** What add_plot builds once its axis is placed. */
  datatype PlotPlan = PlotPlan(kind: Kind, shape: seq<nat>, names: seq<string>)

  datatype Plan = Plan(reg: Registry, result: Result<PlotPlan>)

  /** add_plot after the axis: choose the kind, reorder the shape, process the specs,
      check the rank. */
  function PlanPlot(reg: Registry, shape: seq<nat>, specs: seq<VarSpec>, plotAx: seq<int>): Plan
  {
    var kind := PlotKind(|specs|, |shape|);
    match MovedShape(shape, plotAx, Dims(kind))
    case Err(e) => Plan(reg, Err(e))
    case Ok(moved) =>
      var b := BindAll(reg, specs, moved, |specs|);
      match b.bound
      case Err(e) => Plan(b.reg, Err(e))
      case Ok(names) =>
        if |moved| - Dims(kind) == |specs| then Plan(b.reg, Ok(PlotPlan(kind, moved, names)))
        else Plan(b.reg, Err(RankMismatch))
  }

  /** add_plot succeeds exactly when plot_ax is accepted, every spec is a bare name and
      one or two axes are left unbound; the plot is then an image exactly when two are,
      and binds the named variables in order. Variables already registered keep their bounds. */
  lemma {:induction false} PlanPlotOutcome(reg: Registry, shape: seq<nat>, specs: seq<VarSpec>, plotAx: seq<int>)
    ensures var plan := PlanPlot(reg, shape, specs, plotAx);
      plan.result.Ok? <==>
        && MovedShape(shape, plotAx, Dims(PlotKind(|specs|, |shape|))).Ok?
        && (forall i :: 0 <= i < |specs| ==> specs[i].Name?)
        && (|specs| + 1 == |shape| || |specs| + 2 == |shape|)
    ensures var plan := PlanPlot(reg, shape, specs, plotAx);
      plan.result.Ok? ==>
        && plan.result.value.kind == (if |specs| + 2 == |shape| then Image else Line)
        && |plan.result.value.names| == |specs|
        && forall i :: 0 <= i < |specs| ==>
             plan.result.value.names[i] == specs[i].name && specs[i].name in plan.reg.bounds
    ensures var plan := PlanPlot(reg, shape, specs, plotAx);
      && (forall k :: k in reg.bounds ==> k in plan.reg.bounds && plan.reg.bounds[k] == reg.bounds[k])
      && (reg.WellFormed() ==> plan.reg.WellFormed())
  {
    var kind := PlotKind(|specs|, |shape|);
    var moved := MovedShape(shape, plotAx, Dims(kind));
    if moved.Ok? {
      BindAllOutcome(reg, specs, moved.value, |specs|);
      BindAllGrows(reg, specs, moved.value, 0, |specs|);
    }
  }
}
