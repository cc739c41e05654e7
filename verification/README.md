# manipylate: dimension variables, slice plots and the manipulable figure

manipylate draws slices of a multi-dimensional array. The axes that are not plotted
are each fixed by a *dimension variable* (`dimvar`). A dimvar is a named integer index
that a slider moves. A `lineplot` shows one trailing axis of the data as a curve. A
`plot2d` shows two trailing axes as an image. The figure (`man_lineplot`) has three
jobs:

- it files plots under axis keys;
- it creates each dimension variable once per name;
- on every slider event (`update`), it refreshes all variables and then redraws every
  plot whose variables changed.

This model covers the state logic of those classes. The pure rules of `add_plot` are
stated as functions, with lemmas about them. The classes whose fields the source
updates in place are Dafny classes, and their methods are proved against those
functions.

- `Outcomes` (outcomes.dfy) holds the exceptions the modelled code can raise, as an
  `Error` value. It also defines `Result` and `Outcome`.
- `DimVars` (dimvar.dfy) holds the `dimvar` class and the slider it reads. The slider
  is reduced to its integer position.
- `Plots` (plots.dfy) holds `lineplot` and `plot2d` as one class `SlicePlot`, tagged by
  a `Kind`:
  - the array is known by its shape;
  - the displayed slice is known by the index tuple that selects it;
  - it also has the rank check at construction, `vchanged` and `plot`.
- `PlotSetup` (plot_setup.dfy) holds the rules `add_plot` follows, as functions:
  - the axis key and twin placement;
  - the line/image choice;
  - `np.moveaxis` on the shape;
  - spec resolution and the spec lookup;
  - `_add_var` on a registry of names and bounds.

  The spec loop is the fold `BindAll`, and the lemmas describe its outcome.
- `Figures` (figure.dfy) holds `man_lineplot` as the class `ManLinePlot`. Its fields are:
  - the axis dictionary;
  - an axis counter;
  - the variable dictionary, kept as a map plus its insertion order;
  - the plot list.

  Its methods are proved against `PlaceAxis`, `PlanPlot` and `BindAll`. Its invariant
  says that:
  - every variable is filed under its own name;
  - every plot reads only registered variables;
  - no plot occurs twice.

## Model

| member | source | states |
|---|---|---|
| DimVars.DimVar.constructor | manipylate.py:142-155 | a new variable keeps its name and bounds, has value 0, its changed flag is false and it has no slider |
| DimVars.DimVar.SetValue | manipylate.py:161-167 | the value becomes v exactly when vmin < v < vmax; otherwise it is unchanged, so the endpoints are never stored |
| DimVars.DimVar.AddSlider | manipylate.py:169-170 | the slider is attached |
| DimVars.DimVar.GetChanged | manipylate.py:172-177 | the value becomes the slider's position without any range check; the flag is set exactly when that position differed from the previous value |
| DimVars.RefreshTwice | manipylate.py:172-180 | two refreshes with the slider left where it is: the first reports whether the slider had moved; the second reports no change and leaves the value at the slider position |
| Plots.IndexTuple | manipylate.py:69-72 | the index tuple has one entry per bound variable: that variable's current value, in binding order |
| Plots.NewPlot | manipylate.py:60-61 | a plot is built exactly when the shape's rank minus the plotted axes (1 for a line, 2 for an image) equals the number of variables; otherwise it raises RankMismatch; a new plot shows the slice at the variables' current values |
| Plots.SlicePlot.constructor | manipylate.py:102-114 | the plot keeps its axis, kind, shape and variables, satisfies the rank condition, and displays the current slice |
| Plots.SlicePlot.VChanged | manipylate.py:74-78 | the scan answers true exactly when some bound variable's changed flag is set |
| Plots.SlicePlot.Plot | manipylate.py:80-85 | the displayed slice is replaced by the slice at the current index tuple exactly when a bound variable changed, and is left alone otherwise |
| PlotSetup.PlaceAxis | manipylate.py:220-231 | the key is the position text, plus "y" for a twin; an existing key is reused; otherwise a primary axis or a twin of the primary is filed under the key with the next identity; a twin asked for without a primary is placed as the primary under the bare position |
| PlotSetup.MoveLast | manipylate.py:237 | moving one axis to the end permutes the shape, puts that axis last and keeps the others in order |
| PlotSetup.MoveLastTwo | manipylate.py:235 | moving two distinct axes to the end permutes the shape and puts them last, in the order given |
| PlotSetup.MoveLastTwoKeepsOrder | manipylate.py:235 | after moving two axes to the end, the remaining axes keep their relative order |
| PlotSetup.MovedShape | manipylate.py:233-237 | np.moveaxis succeeds exactly when plot_ax names as many axes as the plot draws, all in range after negative-index normalisation and all distinct; otherwise it raises BadAxis; on success the shape is permuted with the plotted axes last, in the order given |
| PlotSetup.ResolveSpec | manipylate.py:239-250 | a spec resolves to bounds (0, extent-1), where extent is the length of its axis in the reordered data; a two-element list overrides only vmin; a three-element list overrides only vmax; a spec that is neither a list nor a string gets the empty name |
| PlotSetup.Lookup | manipylate.py:252 | the lookup keyed by the spec itself finds only a bare name that is registered; a list, or another object that cannot be hashed, fails as unhashable; a hashable spec that is not a registered name fails as a missing key |
| PlotSetup.Register | manipylate.py:259-261 | a variable is created only under a new name: registered names keep their bounds, a new name gets the given bounds and is appended to the order, and the registry stays duplicate-free |
| PlotSetup.SpecStep | manipylate.py:239-252 | a spec that is looked up successfully names a registered variable |
| PlotSetup.BindAllGrows | manipylate.py:238-252 | while the specs are processed, the registry only grows: earlier names keep their bounds and their place in the order |
| PlotSetup.BindAllStuck | manipylate.py:238-252 | once a spec has raised, the later specs change nothing |
| PlotSetup.BindAllOutcome | manipylate.py:238-252 | the spec loop succeeds exactly when every spec is a bare name and there are no more specs than axes; it then binds the named variables in order, all of them registered |
| PlotSetup.BindAllFirstFailure | manipylate.py:238-252 | the first spec that is not a bare name makes add_plot raise: unhashable for a list or another unhashable object, missing key for a hashable one, after its name was registered; past the last axis, IndexError comes first |
| PlotSetup.BindAllRegistersNew | manipylate.py:239-261 | a spec whose name is new when it is reached leaves that name registered with the bounds it resolves to, whatever later specs do |
| PlotSetup.PlanPlotOutcome | manipylate.py:233-257 | add_plot builds a plot exactly when plot_ax is accepted, every spec is a bare name and one or two axes are left without a variable; the plot is an image exactly when two are left; it binds the named variables in order; earlier variables keep their bounds |
| Figures.ManLinePlot.constructor | manipylate.py:202-204 | a new figure has no axes, no variables and no plots |
| Figures.ManLinePlot.AddVar | manipylate.py:259-261 | _add_var registers as Register does; an existing variable, and so its bounds, is reused; a new one is fresh with value 0 and no change |
| Figures.ManLinePlot.AddPlot | manipylate.py:209-257 | the axis dictionary ends as PlaceAxis says; the variables end as PlanPlot's registry says, even when add_plot raises; every variable it creates is a new object with value 0, no change and no slider; one plot is appended exactly when PlanPlot succeeds, on the placed axis, of the planned kind and shape, bound to the registered variables of the planned names, showing its current slice; otherwise the error is PlanPlot's and the plots are unchanged |
| Figures.ManLinePlot.ChooseAxis | manipylate.py:220-231 | the axis is found or created as PlaceAxis says, except that a twin without a primary is sent back for a retry without twinx and changes nothing |
| Figures.ManLinePlot.AddSlicePlot | manipylate.py:233-257 | after the axis is chosen, the outcome, the registry and the appended plot are those PlanPlot describes; the variables it creates start as a new dimvar does |
| Figures.ManLinePlot.BindAndAppend | manipylate.py:238-257 | the spec loop ends with BindAll's registry, and the variables it creates start as a new dimvar does; the plot is appended exactly when the loop succeeds and the rank matches; otherwise the error is the loop's or RankMismatch |
| Figures.ManLinePlot.AddNewPlot | manipylate.py:254-257 | the lineplot or plot2d is appended exactly when the rank matches, reading the given variables on the given axis |
| Figures.ManLinePlot.AppendPlot | manipylate.py:257 | the plot is appended after the existing ones, which keep what they display |
| Figures.ManLinePlot.BindVariables | manipylate.py:238-252 | the spec loop over the class's variables ends in BindAll's state: same registry, same error or same names, and the collected variables are the registered ones of those names; every variable created in the loop is a new object with value 0, no change and no slider |
| Figures.ManLinePlot.BindNext | manipylate.py:239-252 | one iteration takes the loop from BindAll's state after ii specs to its state after ii+1; every variable created so far is still a new object in its initial state |
| Figures.ManLinePlot.BindOne | manipylate.py:239-252 | one spec performs one BindStep and appends the variable it finds; the variable it creates, if any, is new and in its initial state |
| Figures.ManLinePlot.BindSpec | manipylate.py:239-252 | resolving, registering and looking up one spec does what SpecStep says; a variable it creates is a new object with value 0, no change and no slider |
| Figures.ManLinePlot.Update | manipylate.py:278-283 | every variable keeps its slider, so the next slider event can run the callback again; every variable takes its slider's position and reports whether it moved; only then is every plot redrawn, so each plot sees the new values of all its variables; plots that showed their slice still do |
| Figures.ManLinePlot.RefreshVariables | manipylate.py:279-280 | get_changed runs on every registered variable |
| Figures.ManLinePlot.RedrawPlots | manipylate.py:281-282 | plot() runs on every plot, with the variables as they stand |

## Left out

- Figure and layout setup is not modelled: the figure, GridSpec, add_subplot, the rows and columns, kwargs, and the figure size growing by one slider height per variable. These are calls into the plotting toolkit or floating-point sizes.
- `show()` is not modelled. It creates the sliders and starts the event loop. Update and RefreshVariables instead require every variable to have its slider already. With a missing slider, get_changed would raise AttributeError; GetChanged requires a slider instead.
- Slider clamping and `valstep`: the slider is only an integer position.
- Drawing is not modelled: `ax.plot`, `imshow` and its extent from `x`, `set_ydata`, `set_data`, `relim`, `autoscale_view` and `canvas.draw`. The x (and y) coordinates are left out with it.
- Array contents are not modelled. The data is known by its shape, and a slice by its index tuple.
  - `np.moveaxis` is modelled on the shape only.
  - An index tuple outside the shape would make numpy raise; the symbolic slice does not.
- The `print('Value invalid')` diagnostic of the value setter is output only.
- `dimvar`'s default `vmax=None` is not modelled. Every call site in the figure passes an integer.
- An axis position is modelled as its text `f"{axpos}"`. Axis objects are modelled as identity numbers.
- plot_ax is modelled as a list of axis numbers: an int a is written [a]. A line plot given two axes, or an image plot given one, fails as numpy does.
- Variable specs are modelled as a bare name, a list with at least a name, or another object marked hashable or not. An empty list, which makes the source raise IndexError on `v[0]`, is not representable.
- The name in a list spec is modelled as a string. A list naming its variable by an int, say `[5]`, registers the key 5, and a later bare `5` would then be found; a list whose first element cannot be hashed raises TypeError in `_add_var` before anything is registered. Neither is modelled.
- lineplot and plot2d are modelled as one class with a kind. Their state logic differs only in the number of plotted axes. plot2d's default `origin='lower'` is a drawing option.
- The update loop and the spec loop of add_plot run through helper methods (RefreshVariables, RedrawPlots, BindNext, BindOne, BindSpec). The order of effects is the source's.
