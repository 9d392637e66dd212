/** The engine steps of the `/predict` handler: building the grid, choosing
    the diffuser locations, splitting the supply airflow between them,
    superposing the jets and (when there are returns) the return bias, the
    compliance inputs and the echoed layout. */
module Predict {
  import opened Geometry
  import opened Wrappers
  import opened Grid
  import opened Optimizer
  import opened Jets
  import opened Compliance

  /** One entry of `diffusers.selection`. A missing `existing_locations` is
      `None`. */
  datatype Selection = Selection(modelId: string, count: int, existingLocations: Option<seq<Point>>)

  /** The request fields the modelled lines read. */
  datatype Request = Request(
    lengthM: real, widthM: real,
    students: int, teachers: int,
    supplyTotalCfm: real,
    selection: seq<Selection>,
    minFromWallsM: real,
    returnLocations: seq<Point>,
    optimizeLayout: bool,
    gridSpacingM: real)

  /** The request schema requires at least one selection. */
  predicate WellFormedRequest(req: Request)
  {
    |req.selection| >= 1
  }

  /** The optimiser places the diffusers when asked to, or when the first
      selection gives no locations (missing or empty). */
  predicate UsesOptimizer(req: Request)
    requires WellFormedRequest(req)
  {
    var sel := req.selection[0];
    req.optimizeLayout || sel.existingLocations.None? || |sel.existingLocations.value| == 0
  }

  /** The locations the handler uses, for a room of extents `lx` by `ly`. */
  function ChosenLocations(req: Request, lx: real, ly: real): seq<Point>
    requires WellFormedRequest(req)
  {
    var sel := req.selection[0];
    if UsesOptimizer(req) then Layout(lx, ly, sel.count) else sel.existingLocations.value
  }

  /** Layout selection: `greedy_layout` with the first selection's count, or
      else the manual points as given. */
  method SelectLocations(g: Grid2D, req: Request) returns (locs: seq<Point>)
    requires WellFormedRequest(req)
    ensures locs == ChosenLocations(req, g.lx, g.ly)
  {
    var sel := req.selection[0];
    if req.optimizeLayout || sel.existingLocations.None? || |sel.existingLocations.value| == 0 {
      locs := GreedyLayout(g, sel.count, req.minFromWallsM);
    } else {
      locs := sel.existingLocations.value;
    }
  }

  /** Only the first selection matters; with manual points the count is
      ignored and the points are used as given, in order; with the
      optimiser there is always at least one diffuser and at most five. */
  lemma LocationChoice(req: Request, req': Request, lx: real, ly: real)
    requires WellFormedRequest(req) && WellFormedRequest(req')
    ensures req'.selection[0] == req.selection[0] && req'.optimizeLayout == req.optimizeLayout ==>
      ChosenLocations(req', lx, ly) == ChosenLocations(req, lx, ly)
    ensures !UsesOptimizer(req) ==>
      ChosenLocations(req, lx, ly) == req.selection[0].existingLocations.value && 0 < |ChosenLocations(req, lx, ly)|
    ensures UsesOptimizer(req) ==> 1 <= |ChosenLocations(req, lx, ly)| <= 5
  {
    if UsesOptimizer(req) && req.selection[0].count != 4 {
      OtherCountShape(lx, ly, req.selection[0].count);
    }
  }

  /** Feeding the optimiser's layout back in as manual points, with the
      optimiser off, selects exactly the same locations (and hence the same
      per-outlet airflow and field). */
  lemma ManualRoundTrip(req: Request, lx: real, ly: real)
    requires WellFormedRequest(req) && UsesOptimizer(req)
    ensures var auto := ChosenLocations(req, lx, ly);
      var sel := req.selection[0];
      var req' := req.(optimizeLayout := false,
                       selection := [sel.(existingLocations := Some(auto))] + req.selection[1..]);
      && WellFormedRequest(req') && !UsesOptimizer(req')
      && ChosenLocations(req', lx, ly) == auto
      && PerOutletCfm(req'.supplyTotalCfm, |ChosenLocations(req', lx, ly)|) == PerOutletCfm(req.supplyTotalCfm, |auto|)
  {
    LocationChoice(req, req, lx, ly);
  }

  /** `total_cfm / max(1, len(locs))`: the divisor is at least 1, and the
      per-outlet airflow times the number of outlets gives back the total. */
  function PerOutletCfm(total: real, n: nat): (r: real)
    ensures n == 0 ==> r == total
    ensures n > 0 ==> r * n as real == total
  {
    total / Max(1, n) as real
  }

  /** `field = velocity_field(...)` followed by `field += return_bias(...)`
      when the returns list is non-empty. */
  method CombinedField(g: Grid2D, locs: seq<Point>, perCfm: real, modelId: string,
                       catalog: map<string, DiffuserModel>, grilles: seq<Point>, m: Transcendentals)
    returns (field: array2<Vec>)
    requires g.WellFormed() && CatalogOk(catalog, modelId) && m.SqrtOk()
    ensures fresh(field)
    ensures field.Length0 == g.ny && field.Length1 == g.nx
    ensures forall j, i :: 0 <= j < g.ny && 0 <= i < g.nx ==>
      field[j, i] == Accumulate(Contribution(JetSource(catalog, modelId, perCfm), m), locs, g.Cell(j, i))
        .Add(Accumulate(Contribution(Sink(ReturnStrength), m), grilles, g.Cell(j, i)))
  {
    field := VelocityField(g, locs, perCfm, modelId, catalog, m);
    if |grilles| > 0 {
      var fb := ReturnBias(g, grilles, ReturnStrength, m);
      AddInPlace(field, fb);
    } else {
      forall j, i | 0 <= j < g.ny && 0 <= i < g.nx
        ensures field[j, i] == field[j, i].Add(Accumulate(Contribution(Sink(ReturnStrength), m), grilles, g.Cell(j, i)))
      {
        AddZero(field[j, i]);
      }
    }
  }

  /** The sink strength the handler passes to `return_bias`. */
  const ReturnStrength: real := 0.05

  lemma AddZero(v: Vec)
    ensures v.Add(Zero) == v
  {
  }

  /** `field += fb` on two arrays of the same shape. */
  method AddInPlace(field: array2<Vec>, fb: array2<Vec>)
    requires field != fb
    requires field.Length0 == fb.Length0 && field.Length1 == fb.Length1
    modifies field
    ensures forall j, i :: 0 <= j < field.Length0 && 0 <= i < field.Length1 ==>
      field[j, i] == old(field[j, i]).Add(fb[j, i])
  {
    for j := 0 to field.Length0
      invariant forall j', i :: 0 <= j' < j && 0 <= i < field.Length1 ==>
        field[j', i] == old(field[j', i]).Add(fb[j', i])
      invariant forall j', i :: j <= j' < field.Length0 && 0 <= i < field.Length1 ==>
        field[j', i] == old(field[j', i])
    {
      for i := 0 to field.Length1
        invariant forall j', i' :: 0 <= j' < j && 0 <= i' < field.Length1 ==>
          field[j', i'] == old(field[j', i']).Add(fb[j', i'])
        invariant forall i' :: 0 <= i' < i ==> field[j, i'] == old(field[j, i']).Add(fb[j, i'])
        invariant forall j', i' :: j <= j' < field.Length0 && 0 <= i' < field.Length1 && (j' != j || i <= i') ==>
          field[j', i'] == old(field[j', i'])
      {
        field[j, i] := field[j, i].Add(fb[j, i]);
      }
    }
  }

  /** The compliance check is made for students plus teachers, the floor
      area `length * width` and the total supply airflow. */
  function ComplianceFor(req: Request): (r: Report)
    ensures r.pzPeople == req.students + req.teachers
    ensures r.azM2 == req.lengthM * req.widthM
    ensures r.suppliedCfm == req.supplyTotalCfm
    ensures r.pass <==> req.supplyTotalCfm >= Vbz(req.students + req.teachers, req.lengthM * req.widthM)
  {
    VrpClassroom(req.students + req.teachers, req.lengthM * req.widthM, req.supplyTotalCfm)
  }

  datatype DiffuserEntry = DiffuserEntry(x: real, y: real, cfm: real)
  datatype ReturnEntry = ReturnEntry(x: real, y: real)
  datatype LayoutEcho = LayoutEcho(diffusers: seq<DiffuserEntry>, model: string, returnEntries: seq<ReturnEntry>)

  /** The `layout` part of the response (airflow before rounding). */
  function EchoLayout(locs: seq<Point>, perCfm: real, modelId: string, grilles: seq<Point>): (r: LayoutEcho)
    ensures |r.diffusers| == |locs| && |r.returnEntries| == |grilles| && r.model == modelId
    ensures forall k :: 0 <= k < |locs| ==> r.diffusers[k] == DiffuserEntry(locs[k].x, locs[k].y, perCfm)
    ensures forall k :: 0 <= k < |grilles| ==> r.returnEntries[k] == ReturnEntry(grilles[k].x, grilles[k].y)
  {
    LayoutEcho(
      seq(|locs|, k requires 0 <= k < |locs| => DiffuserEntry(locs[k].x, locs[k].y, perCfm)),
      modelId,
      seq(|grilles|, k requires 0 <= k < |grilles| => ReturnEntry(grilles[k].x, grilles[k].y)))
  }

  /** Total airflow listed in the echoed layout. */
  function EchoedCfm(entries: seq<DiffuserEntry>): real
  {
    if |entries| == 0 then 0.0 else EchoedCfm(entries[..|entries| - 1]) + entries[|entries| - 1].cfm
  }

  lemma {:induction false} EchoedCfmUniform(entries: seq<DiffuserEntry>, c: real)
    requires forall k :: 0 <= k < |entries| ==> entries[k].cfm == c
    ensures EchoedCfm(entries) == |entries| as real * c
  {
    if |entries| > 0 {
      EchoedCfmUniform(entries[..|entries| - 1], c);
    }
  }

  /** Before the response rounds them to one decimal, the echoed outlet
      airflows add up to exactly the total supply whenever there is at least
      one outlet. */
  lemma EchoConservesAirflow(locs: seq<Point>, total: real, modelId: string, grilles: seq<Point>)
    requires 0 < |locs|
    ensures EchoedCfm(EchoLayout(locs, PerOutletCfm(total, |locs|), modelId, grilles).diffusers) == total
  {
    var per := PerOutletCfm(total, |locs|);
    var echo := EchoLayout(locs, per, modelId, grilles);
    EchoedCfmUniform(echo.diffusers, per);
    assert per * |locs| as real == total;
  }

  /** What the modelled part of the handler produces. */
  datatype Outcome = Outcome(
    grid: Grid2D, locs: seq<Point>, perCfm: real,
    field: array2<Vec>, compliance: Report, layout: LayoutEcho)

  /** The modelled steps of `predict`, in order. A zero grid spacing makes
      the grid construction divide by zero, which ends the request. */
  method PredictCore(req: Request, catalog: map<string, DiffuserModel>, m: Transcendentals)
    returns (res: Result<Outcome, string>)
    requires WellFormedRequest(req) && CatalogOk(catalog, req.selection[0].modelId) && m.SqrtOk()
    ensures res.Err? <==> req.gridSpacingM == 0.0
    ensures res.Ok? ==> var o := res.value;
      && Some(o.grid) == MakeGrid(req.lengthM, req.widthM, req.gridSpacingM)
      && o.locs == ChosenLocations(req, req.lengthM, req.widthM)
      && o.perCfm == PerOutletCfm(req.supplyTotalCfm, |o.locs|)
      && o.field.Length0 == o.grid.ny && o.field.Length1 == o.grid.nx
      && (forall j, i :: 0 <= j < o.grid.ny && 0 <= i < o.grid.nx ==>
            o.field[j, i] == Accumulate(Contribution(JetSource(catalog, req.selection[0].modelId, o.perCfm), m), o.locs, o.grid.Cell(j, i))
              .Add(Accumulate(Contribution(Sink(ReturnStrength), m), req.returnLocations, o.grid.Cell(j, i))))
      && o.compliance == ComplianceFor(req)
      && o.layout == EchoLayout(o.locs, o.perCfm, req.selection[0].modelId, req.returnLocations)
  {
    var grid := MakeGrid(req.lengthM, req.widthM, req.gridSpacingM);
    if grid.None? {
      return Err("division by zero");
    }
    var g := grid.value;
    var sel := req.selection[0];
    var locs := SelectLocations(g, req);
    var perCfm := PerOutletCfm(req.supplyTotalCfm, |locs|);
    var field := CombinedField(g, locs, perCfm, sel.modelId, catalog, req.returnLocations, m);
    var comp := ComplianceFor(req);
    res := Ok(Outcome(g, locs, perCfm, field, comp, EchoLayout(locs, perCfm, sel.modelId, req.returnLocations)));
  }
}
