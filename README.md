# classroom-airdist engine in Dafny

This project models the numeric engine of classroom-airdist, together with the engine
steps of its `/predict` handler. The engine estimates air-diffusion comfort in a
rectangular classroom:

- **Grid** (`grid.dfy`): builds the sampling mesh `Grid2D`. There are at least 3 cells per
  axis, and the centres run evenly from `spacing/2` to `L - spacing/2`.
- **Optimizer** (`optimizer.dfy`): `greedy_layout`, the deterministic diffuser placement.
- **Jets** (`jets.dfy`):
  - the catalog lookup and the throw interpolation (`_interpolate_throw`);
  - superposition of per-diffuser Gaussian jets (`velocity_field`) and per-return sinks
    (`return_bias`) into a `(ny, nx)` array of 2-vectors.
- **EdtAdpi** (`edt_adpi.dfy`):
  - `local_temperature` and `edt_field`;
  - `compute_metrics`: the pass mask, ADPI, the velocity percentages, the 20-bin EDT
    histogram and the warnings.
- **Compliance** (`compliance.dfy`): `vrp_classroom`. It computes the breathing-zone outdoor
  airflow `Vbz = Rp·Pz + Ra·Az` of section 6.2 of ANSI/ASHRAE Standard 62.1-2022, with the
  classroom rates, and compares it to the supply.
- **Uncertainty** (`uncertainty.dfy`): `estimate`, the three-condition escalation of level,
  band and drivers.
- **Predict** (`predict.dfy`): the modelled steps of the `/predict` handler:
  - layout selection from the first diffuser selection;
  - the per-outlet airflow split;
  - return-bias gating;
  - the compliance inputs;
  - the echoed layout.

Modelling choices:

- Floats are `real`.
- `exp` and `sqrt` cannot be computed in Dafny. The operations that use them take a
  `Geometry.Transcendentals` value, and its ghost predicates state the only facts the
  proofs use:
  - `exp` is positive, and at most 1 on non-positive arguments;
  - `sqrt` is the non-negative square root.
- Python's `int()` is truncation toward zero (`Grid.Trunc`).
- `np.mean` of no cells is NaN. It is written `None`, and a comparison with it is false
  (`EdtAdpi.Exceeds`).
- A zero grid spacing makes the grid constructor divide by zero. `Grid.MakeGrid` returns
  `None` there, and `Predict.PredictCore` returns `Err`.
- The field arrays are `array2<Vec>`. The superposition loops update them in place, cell by
  cell, source by source.
- `compute_metrics` receives the `(ny, nx)` arrays flattened in row-major order, which is
  the order `edt.flatten()` reports them in.
- The YAML constants (`Tmin_C`, `Tmax_C`, `vmax_mps`, `v_low_mps`, `v_high_mps`) are the
  parameter `EdtAdpi.Config`.
- The diffuser catalog is a map from model id to model.

Notable behaviour of the code, which the model keeps:

- The cell centres are `(L - s)/(nx - 1)` apart, which is strictly less than `s`
  (`Grid.StepBelowSpacing`).
- The spacing is used as given: no lower or upper bound is applied to it.
- In a room narrower than half the spacing, the mesh leaves the room
  (`Grid.NarrowRoomLeavesFootprint`).
- The placement does not return `count` positions in general. It returns a prefix of at most
  five fixed points, or the 2x2 layout for four, and it ignores the wall clearance.
- Manual positions are not auto-filled up to the requested count.
- Each diffuser's jet is a single isotropic Gaussian, and the field is not normalised.

## Model

| member | source | states |
|---|---|---|
| Grid.Trunc | backend/engine/grid.py:12-13 | `int()` on a float is the floor for non-negative values and the ceiling for negative ones, i.e. truncation toward zero |
| Grid.CellCount | backend/engine/grid.py:12-13 | every axis gets at least 3 cells, and for `L/s >= 0` at most `max(2, ⌊L/s⌋) + 1` |
| Grid.LinspaceShape | backend/engine/grid.py:14-15 | `np.linspace(a, b, n)` has `n` entries, starts at `a`, ends at `b` and has the constant step `(b-a)/(n-1)` |
| Grid.MakeGrid | backend/engine/grid.py:11-17 | no grid iff spacing is 0; otherwise `nx = max(3, int(L/s)+1)` and likewise `ny`; `x` runs from `s/2` to `Lx - s/2` in steps of `(Lx-s)/(nx-1)`, and likewise `y`; shape is `(ny, nx)` with `xx[j][i] == x[i]` and `yy[j][i] == y[j]` |
| Grid.LinspaceBounds | backend/engine/grid.py:14-15 | every linspace entry lies between its two end points, whichever of them is larger |
| Grid.AxisInsideRoom | backend/engine/grid.py:12-15 | along one axis of extent `L`, every centre lies in `[0, L]` once `L >= s/2`, and in `[s/2, L - s/2]` once `L >= s` |
| Grid.CellsInsideRoom | backend/engine/grid.py:12-15 | the same for the grid's x and y centres, each axis on its own condition |
| Grid.StepBelowSpacing | backend/engine/grid.py:12-14 | the centre spacing `(Lx-s)/(nx-1)` is strictly below the nominal spacing `s` |
| Grid.NarrowRoomLeavesFootprint | backend/engine/grid.py:12-14 | for `0 <= Lx < s/2` there are 3 columns and the last centre lies below 0 |
| Optimizer.GreedyLayout | backend/engine/optimizer.py:2-11 | the appending loop with its early break returns the 2x2 layout for count 4 and otherwise the first `min(max(count,1),5)` of centre plus quadrant points; `min_wall` plays no part |
| Optimizer.FourIsQuad | backend/engine/optimizer.py:4-6 | count 4 gives exactly `(0.3L,0.3W),(0.3L,0.7W),(0.7L,0.3W),(0.7L,0.7W)` in that order |
| Optimizer.OtherCountShape | backend/engine/optimizer.py:7-11 | any other count gives 1 to 5 points, the room centre first, a prefix of the candidate list |
| Optimizer.LayoutInsideRoom | backend/engine/optimizer.py:4-11 | for `L, W >= 0` every placed point lies in `[0,L]x[0,W]` |
| Jets.LoadModel | backend/engine/jets.py:5-11 | a known id loads its own model, and an unknown id gets the default model |
| Jets.FirstBracket | backend/engine/jets.py:21-22 | finds the first segment `i` with `xs[i] <= cfm <= xs[i+1]`, or reports that none exists |
| Jets.BelowBeforeBracket | backend/engine/jets.py:17-22 | above the first row, every row before the first containing segment has `cfm` below the query, so the divisor `xs[i+1]-xs[i]` is positive |
| Jets.InterpolateThrow | backend/engine/jets.py:13-26 | the scanning loop with its break returns the clamped or interpolated throw in feet times 0.3048 |
| Jets.BracketExists | backend/engine/jets.py:19-25 | strictly inside the table a containing segment always exists, so the `ys[0]` fallback is never returned there |
| Jets.ThrowClamped | backend/engine/jets.py:17-18 | at or below `xs[0]` the throw is `ys[0]·0.3048`, and at or above `xs[-1]` it is `ys[-1]·0.3048` |
| Jets.ThrowInterior | backend/engine/jets.py:19-26 | strictly inside, the throw is `ys[i](1-t)+ys[i+1]t` for the first containing segment `i`, with `t` in `[0,1]` |
| Jets.ThrowBetweenSegmentEnds | backend/engine/jets.py:19-25 | strictly inside, the throw lies between the two throws of the segment used |
| Jets.MinThrow | backend/engine/jets.py:16 | the smallest throw of the table |
| Jets.MaxThrow | backend/engine/jets.py:16 | the largest throw of the table |
| Jets.ThrowWithinTable | backend/engine/jets.py:13-26 | the throw always lies between the table's smallest and largest throws |
| Jets.ThrowAtBreakpoint | backend/engine/jets.py:17-26 | for strictly increasing airflows, at a breakpoint `xs[k]` the throw is exactly `ys[k]·0.3048` |
| Jets.Sigma | backend/engine/jets.py:31 | `sigma = max(0.5, 0.35·T50)`, so at least 0.5 |
| Jets.U0 | backend/engine/jets.py:32 | `U0 = max(0.1, per_cfm/1000)`, so at least 0.1 |
| Jets.JetSource | backend/engine/jets.py:29-32 | the derived jet has `U0 >= 0.1`, `sigma >= 0.5` and a positive Gaussian divisor `2σ²` |
| Jets.JetAt | backend/engine/jets.py:36-42 | a jet's velocity points along the offset from the diffuser, away from it, and is strictly slower than `U0` |
| Jets.Amp | backend/engine/jets.py:39 | the Gaussian amplitude lies in `(0, U0]` for a positive `U0` |
| Jets.SinkAt | backend/engine/jets.py:48-52 | a return's pull has length `strength·d/(d+1e-6)`, below `strength`, and points along the offset toward the return |
| Jets.Superpose | backend/engine/jets.py:34-43 | starting from a zero `(ny, nx)` array and adding each source at every cell yields, at each cell, the sum of the contributions of all sources |
| Jets.AddSource | backend/engine/jets.py:35-42 | one pass of the source loop adds that source's contribution at every cell |
| Jets.AddSourceRow | backend/engine/jets.py:41-42 | the same addition on one row of cells, leaving the other rows untouched |
| Jets.AccumulateSnoc | backend/engine/jets.py:35-42 | adding one more source adds its contribution |
| Jets.AccumulateAppend | backend/engine/jets.py:35-42 | the field of `A ++ B` is the field of `A` plus the field of `B` |
| Jets.AccumulatePermutation | backend/engine/jets.py:35-42 | the field does not depend on the order of the sources |
| Jets.VelocityField | backend/engine/jets.py:28-43 | the field has shape `(ny, nx)` and is the sum of the jets of all diffusers; it is identically zero for no diffusers |
| Jets.ReturnBias | backend/engine/jets.py:45-53 | the bias has shape `(ny, nx)` and is the sum of the pulls of all returns; it is zero for no returns |
| Jets.JetPointsAway | backend/engine/jets.py:36-42 | at every cell, each diffuser's contribution points away from that diffuser and is slower than `U0` |
| Jets.SinkPull | backend/engine/jets.py:48-52 | each return's pull has length `strength·d/(d+1e-6) < strength` and points from the cell toward the return |
| Jets.PullGeometry | backend/engine/jets.py:50-52 | the arithmetic behind the pull's length and direction |
| Jets.FieldSuperposes | backend/engine/jets.py:34-43 | for one per-outlet airflow, the velocity field adds over concatenated diffuser lists and ignores their order |
| EdtAdpi.Clip | backend/engine/edt_adpi.py:11 | `np.clip` stays within its bounds and leaves in-range values unchanged |
| EdtAdpi.LocalTemperature | backend/engine/edt_adpi.py:9-13 | for `deltaT <= 0`, `Tr + deltaT <= Tx <= Tr`, and symmetrically for `deltaT >= 0` |
| EdtAdpi.MixedOffset | backend/engine/edt_adpi.py:12 | the mixed offset `deltaT·(1-mix)` lies between 0 and `deltaT` |
| EdtAdpi.EdtMonotone | backend/engine/edt_adpi.py:15-16 | a higher speed at the same temperature gives a strictly lower EDT; still air at room temperature has EDT 1.2 and 0.15 m/s gives 0 |
| EdtAdpi.EdtOfCooledCell | backend/engine/edt_adpi.py:9-16 | with cold supply the EDT of the mixed air lies within `deltaT` of the velocity term `-8(V-0.15)` and below it |
| EdtAdpi.EdtValues | backend/engine/edt_adpi.py:15-20 | per cell, `edt = (Tx - 24) - 8·(V - 0.15)` |
| EdtAdpi.PassBoundaries | backend/engine/edt_adpi.py:24 | a cell at `Tmin` or `Tmax` passes when slower than `vmax`; a cell at exactly `vmax` fails; outside the EDT bounds nothing passes |
| EdtAdpi.CountTrue | backend/engine/edt_adpi.py:25-27 | a mask count never exceeds the number of cells |
| EdtAdpi.CountTrueExtremes | backend/engine/edt_adpi.py:25-27 | the count is 0 iff no cell is set, and the number of cells iff every cell is set |
| EdtAdpi.Fraction | backend/engine/edt_adpi.py:25 | the mask mean is NaN exactly for no cells, and otherwise lies in `[0,1]` |
| EdtAdpi.QuotientInUnit | backend/engine/edt_adpi.py:25 | a count over the number of cells lies in `[0,1]` |
| EdtAdpi.Percent | backend/engine/edt_adpi.py:26-27 | the percentages are NaN exactly for no cells, and otherwise lie in `[0,100]` |
| EdtAdpi.AdpiBounds | backend/engine/edt_adpi.py:24-25 | for a non-empty grid ADPI is in `[0,1]`; it is 1 iff every cell passes and 0 iff none does |
| EdtAdpi.RatioExtremes | backend/engine/edt_adpi.py:25 | `c/n` is 1 iff `c == n`, and 0 iff `c == 0` |
| EdtAdpi.UniformField | backend/engine/edt_adpi.py:26-27 | a field entirely below `v_low` gives `pct_low = 100`, and one entirely above `v_high` gives `pct_high = 100` |
| EdtAdpi.Centre | backend/engine/edt_adpi.py:30 | the centre of bin `i` is `-2.875 + 0.25·i` |
| EdtAdpi.BinOf | backend/engine/edt_adpi.py:29 | a value falls in one of the 20 bins or in none |
| EdtAdpi.BinOfMatchesEdges | backend/engine/edt_adpi.py:29 | in both directions: bin `i` is `[-3+0.25i, -3+0.25(i+1))`, the last bin also takes 2, and values outside `[-3,2]` fall in no bin |
| EdtAdpi.Histogram | backend/engine/edt_adpi.py:29 | the histogram has 20 counts |
| EdtAdpi.HistogramCountsBin | backend/engine/edt_adpi.py:29 | each histogram count is the number of EDT values in that bin |
| EdtAdpi.SumIncrement | backend/engine/edt_adpi.py:29 | counting a value in one bin raises the total by one |
| EdtAdpi.SumZeros | backend/engine/edt_adpi.py:29 | the empty histogram totals 0 |
| EdtAdpi.HistogramTotal | backend/engine/edt_adpi.py:29-30 | the counts add up to the number of values inside `[-3,2]`, hence at most the number of cells |
| EdtAdpi.Warnings | backend/engine/edt_adpi.py:31-33 | the high-velocity message is present iff `pct_high > 10`, the stagnation message iff `pct_low > 25`, and no message twice |
| EdtAdpi.WarningOrder | backend/engine/edt_adpi.py:31-33 | when both fire, the high-velocity message comes first |
| EdtAdpi.ComputeMetrics | backend/engine/edt_adpi.py:18-43 | the metrics record: EDT values per cell; `adpi` and `edt_pass_fraction` both equal the passing share; `pct_low` and `pct_high` are the slow and fast shares; `draft_risk_area_pct = pct_high`; 20 bins with centre `-2.875+0.25i` and the bin counts; the warnings |
| EdtAdpi.Tally | backend/engine/edt_adpi.py:24-29 | one loop over the cells yields the pass, slow and fast counts and the histogram |
| EdtAdpi.MetricsShape | backend/tests/unit/test_edt_adpi.py:4-9 | for any non-empty field ADPI is a number in `[0,1]`, and a uniformly fast field raises the high-velocity warning |
| Compliance.VrpClassroom | backend/engine/compliance.py:2-16 | `Vbz = 10·Pz + 0.12·(10.7639·area) = 10·Pz + 1.291668·area`; pass iff `supply >= Vbz`; the record echoes `Pz`, the area and the supply, and carries `std = "62.1-2022"` |
| Compliance.PassBoundary | backend/engine/compliance.py:7 | supplying exactly `Vbz` passes, and less fails |
| Compliance.PassMonotoneInSupply | backend/engine/compliance.py:7 | passing at supply `s` implies passing at any `s' >= s` |
| Compliance.VbzPositive | backend/tests/unit/test_vrp.py:4-6 | with at least one person and a non-negative area, `Vbz >= 10 > 0` |
| Compliance.VbzMonotone | backend/engine/compliance.py:6-7 | `Vbz` does not decrease in people or area, so more of either never turns a fail into a pass |
| Uncertainty.EstimateUncertainty | backend/engine/uncertainty.py:2-12 | the three sequential checks produce the closed-form level, band and drivers of the three conditions; `locs` plays no part |
| Uncertainty.NothingTriggered | backend/engine/uncertainty.py:3-5 | no condition gives `("low", 6.0, [])` |
| Uncertainty.LevelCases | backend/engine/uncertainty.py:6-11 | high iff `pct_v_gt_0_25 > 10` (strict); medium iff not high and `height <= 2.7` or `abs(ΔT) >= 12` (inclusive); low otherwise |
| Uncertainty.BandAndDrivers | backend/engine/uncertainty.py:5-11 | `pp` lies in `[6,13]`; the drivers have one label per true condition, each once, in the fixed order |
| Uncertainty.Escalates | backend/engine/uncertainty.py:6-11 | making more conditions true never lowers the level or the band |
| Predict.SelectLocations | backend/app/routes/predict.py:17-22 | `greedy_layout` with the first selection's count when optimising or when no manual points are given; otherwise the manual points |
| Predict.LocationChoice | backend/app/routes/predict.py:17-22 | only `selection[0]` matters; manual points are used as given, in order, and the count is ignored; the optimiser gives 1 to 5 points |
| Predict.ManualRoundTrip | backend/app/routes/predict.py:19-25 | feeding the optimiser's layout back in as manual points selects the same locations and the same per-outlet airflow |
| Predict.PerOutletCfm | backend/app/routes/predict.py:24-25 | with no outlets the divisor is 1; otherwise per-outlet airflow times the outlet count gives back the total |
| Predict.CombinedField | backend/app/routes/predict.py:27-31 | the field is the jet sum plus the return sum at every cell; gating the addition on non-empty returns changes nothing |
| Predict.AddZero | backend/app/routes/predict.py:30-31 | adding the zero vector changes nothing |
| Predict.AddInPlace | backend/app/routes/predict.py:31 | `field += fb` adds cell by cell, in place |
| Predict.ComplianceFor | backend/app/routes/predict.py:40-42 | the check gets `students + teachers` people, area `length·width` and the total supply; it passes iff the total covers `Vbz` |
| Predict.EchoLayout | backend/app/routes/predict.py:64-68 | one diffuser entry per location, in order, each with the per-outlet airflow; the model id; the returns echoed in order |
| Predict.EchoedCfmUniform | backend/app/routes/predict.py:65 | entries that all carry `c` add up to `count·c` |
| Predict.EchoConservesAirflow | backend/app/routes/predict.py:24-25 | with at least one outlet, the echoed per-outlet airflows, before rounding, add up to the total supply |
| Predict.PredictCore | backend/app/routes/predict.py:15-31 | zero spacing ends the request; otherwise the grid, the chosen locations, the airflow split, the combined field, the compliance record and the echoed layout as above |

## Left out

- `_load_any_model` (backend/engine/jets.py:5-11) reads JSON files. The catalog is a map
  parameter here, and only the fallback to the default model is kept (`Jets.LoadModel`).
- A throw table whose `"50"` key is missing, or that has no rows, raises in the source.
  `Jets.InterpolateThrow` requires both directly instead. `Jets.VelocityField` and
  `Predict.PredictCore` require them, through `Jets.CatalogOk`, of the one model they load.
- `exp` and `sqrt` are abstract, so no numeric field value is computed. Their properties are
  the ones `Geometry.Transcendentals` states.
- Floating-point rounding is not modelled, nor are the `round(...)` calls of the compliance
  record and the response. Values are kept unrounded.
- Predict.EchoConservesAirflow: holds for the unrounded per-outlet airflow only. The response
  echoes `round(per_cfm, 1)` (backend/app/routes/predict.py:65), so 1000 cfm over 3 outlets
  echoes 333.3 three times, which adds up to 999.9.
- The module-level YAML load of backend/engine/edt_adpi.py:6-7 is not modelled. Its
  thresholds are the `EdtAdpi.Config` parameter.
- `np.histogram`'s floating-point bin search is not modelled. `EdtAdpi.BinOf` places values
  by exact real arithmetic on the edges `-3 + 0.25·k`.
- `np.linalg.norm` of the field (backend/app/routes/predict.py:34) is not modelled.
  `compute_metrics` takes the speeds as input.
- Lines 33-38 and 43-78 of backend/app/routes/predict.py are not modelled, apart from 64-68.
  They are temperature and metrics calls already modelled on their own, `np.percentile` for
  `v50`/`v95` (a numpy library detail), directory creation, figure and CSV output, and the
  `JSONResponse`.
- `local_temperature` applies elementwise to the speed array. It is modelled for one cell.
- backend/reports/figures.py, backend/app/main.py, backend/app/routes/report.py,
  backend/app/routes/catalogs.py, backend/app/settings.py and web/static/app.js are not part
  of this model. They hold plotting, HTTP wiring, file I/O and the browser UI.
- Request validation by the pydantic schema is not modelled, except that `selection` is
  non-empty (`Predict.WellFormedRequest`).
