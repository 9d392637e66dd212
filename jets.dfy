/** The jet-field synthesiser: diffuser catalog lookup, throw interpolation,
    and the superposition of per-diffuser jets and per-return sinks into a
    (ny, nx) field of 2-vectors. */
module Jets {
  import opened Geometry
  import opened Wrappers
  import opened Grid

  // ---------------------------------------------------------------------------
  // Catalog

  /** One row of a catalog throw table: supply airflow (cfm) and throw (ft). */
  datatype ThrowPoint = ThrowPoint(cfm: real, throwFt: real)

  /** A diffuser model: throw tables keyed by terminal velocity ("50" fpm). */
  datatype DiffuserModel = DiffuserModel(throwsFpm: map<string, seq<ThrowPoint>>)

  const DefaultModelId: string := "example_square_cone"
  const ThrowKey: string := "50"
  const FtToM: real := 0.3048

  /** What the engine needs of the catalog for a request naming `modelId`:
      the default model is present, and the model actually loaded has a
      non-empty 50 fpm table. Other models are never read. */
  ghost predicate CatalogOk(catalog: map<string, DiffuserModel>, modelId: string)
  {
    && DefaultModelId in catalog
    && var model := LoadModel(catalog, modelId);
       ThrowKey in model.throwsFpm && |model.throwsFpm[ThrowKey]| > 0
  }

  /** A known model id loads its own model; an unknown one falls back to the
      default model. */
  function LoadModel(catalog: map<string, DiffuserModel>, modelId: string): (m: DiffuserModel)
    requires DefaultModelId in catalog
    ensures m in catalog.Values
    ensures modelId in catalog ==> m == catalog[modelId]
    ensures modelId !in catalog ==> m == catalog[DefaultModelId]
  {
    if modelId in catalog then catalog[modelId] else catalog[DefaultModelId]
  }

  // ---------------------------------------------------------------------------
  // Throw interpolation

  /** Segment `i` of the table contains `cfm`, both ends inclusive. */
  predicate Brackets(tab: seq<ThrowPoint>, cfm: real, i: int)
    requires 0 <= i < |tab| - 1
  {
    tab[i].cfm <= cfm <= tab[i + 1].cfm
  }

  /** The first segment at or after `from` that contains `cfm`. */
  function FirstBracket(tab: seq<ThrowPoint>, cfm: real, from: nat): (r: Option<nat>)
    decreases |tab| - from
    ensures r.Some? ==>
      && from <= r.value < |tab| - 1
      && Brackets(tab, cfm, r.value)
      && (forall k :: from <= k < r.value ==> !Brackets(tab, cfm, k))
    ensures r.None? ==> forall k :: from <= k < |tab| - 1 ==> !Brackets(tab, cfm, k)
  {
    if from + 1 >= |tab| then None
    else if Brackets(tab, cfm, from) then Some(from)
    else FirstBracket(tab, cfm, from + 1)
  }

  /** Walking from a row below `cfm` through segments that miss it, every row
      stays below `cfm`. */
  lemma {:induction false} BelowBeforeBracket(tab: seq<ThrowPoint>, cfm: real, j: int)
    requires 0 <= j < |tab|
    requires tab[0].cfm < cfm
    requires forall k :: 0 <= k < j ==> !Brackets(tab, cfm, k)
    ensures tab[j].cfm < cfm
  {
    if j > 0 {
      BelowBeforeBracket(tab, cfm, j - 1);
      assert !Brackets(tab, cfm, j - 1);
    }
  }

  /** Linear interpolation on segment `i`, whose ends are distinct. */
  function Lerp(tab: seq<ThrowPoint>, i: int, cfm: real): real
    requires 0 <= i < |tab| - 1
    requires tab[i].cfm < tab[i + 1].cfm
  {
    var t := (cfm - tab[i].cfm) / (tab[i + 1].cfm - tab[i].cfm);
    tab[i].throwFt * (1.0 - t) + tab[i + 1].throwFt * t
  }

  /** Throw in feet: clamped to the first and last rows, else interpolated
      on the first segment containing `cfm`. */
  function ThrowFt(tab: seq<ThrowPoint>, cfm: real): real
    requires |tab| > 0
  {
    if cfm <= tab[0].cfm then tab[0].throwFt
    else if cfm >= tab[|tab| - 1].cfm then tab[|tab| - 1].throwFt
    else
      match FirstBracket(tab, cfm, 0)
      case None => tab[0].throwFt
      case Some(i) => BelowBeforeBracket(tab, cfm, i); Lerp(tab, i, cfm)
  }

  /** `_interpolate_throw(model, cfm, key)`: throw in metres. */
  method InterpolateThrow(model: DiffuserModel, cfm: real, key: string) returns (throwM: real)
    requires key in model.throwsFpm && |model.throwsFpm[key]| > 0
    ensures throwM == ThrowFt(model.throwsFpm[key], cfm) * FtToM
  {
    var tab := model.throwsFpm[key];
    var valFt: real;
    if cfm <= tab[0].cfm {
      valFt := tab[0].throwFt;
    } else if cfm >= tab[|tab| - 1].cfm {
      valFt := tab[|tab| - 1].throwFt;
    } else {
      valFt := tab[0].throwFt;
      for i := 0 to |tab| - 1
        invariant forall k :: 0 <= k < i ==> !Brackets(tab, cfm, k)
        invariant valFt == tab[0].throwFt
      {
        if tab[i].cfm <= cfm <= tab[i + 1].cfm {
          BelowBeforeBracket(tab, cfm, i);
          var t := (cfm - tab[i].cfm) / (tab[i + 1].cfm - tab[i].cfm);
          valFt := tab[i].throwFt * (1.0 - t) + tab[i + 1].throwFt * t;
          assert Brackets(tab, cfm, i);
          assert FirstBracket(tab, cfm, 0) == Some(i);
          assert valFt == Lerp(tab, i, cfm);
          break;
        }
      }
    }
    throwM := valFt * 0.3048;
  }

  /** Strictly inside the table a containing segment always exists, so the
      fallback to the first row is never taken. */
  lemma BracketExists(tab: seq<ThrowPoint>, cfm: real)
    requires |tab| > 0 && tab[0].cfm < cfm < tab[|tab| - 1].cfm
    ensures FirstBracket(tab, cfm, 0).Some?
  {
    if FirstBracket(tab, cfm, 0).None? {
      BelowBeforeBracket(tab, cfm, |tab| - 1);
    }
  }

  /** At or below the first row the throw is the first row's, at or above
      the last row (and above the first) it is the last row's. */
  lemma ThrowClamped(tab: seq<ThrowPoint>, cfm: real)
    requires |tab| > 0
    ensures cfm <= tab[0].cfm ==> ThrowFt(tab, cfm) * FtToM == tab[0].throwFt * 0.3048
    ensures tab[0].cfm < cfm && tab[|tab| - 1].cfm <= cfm ==>
      ThrowFt(tab, cfm) * FtToM == tab[|tab| - 1].throwFt * 0.3048
  {
  }

  /** Strictly inside the table the throw is the interpolation on the first
      segment `i` with `xs[i] <= cfm <= xs[i+1]`, at a parameter `t` in [0, 1]. */
  lemma ThrowInterior(tab: seq<ThrowPoint>, cfm: real)
    requires |tab| > 0 && tab[0].cfm < cfm < tab[|tab| - 1].cfm
    ensures FirstBracket(tab, cfm, 0).Some?
    ensures var i := FirstBracket(tab, cfm, 0).value;
      && tab[i].cfm <= cfm <= tab[i + 1].cfm
      && (forall k :: 0 <= k < i ==> !(tab[k].cfm <= cfm <= tab[k + 1].cfm))
      && tab[i].cfm < tab[i + 1].cfm
      && var t := (cfm - tab[i].cfm) / (tab[i + 1].cfm - tab[i].cfm);
      && 0.0 <= t <= 1.0
      && ThrowFt(tab, cfm) == tab[i].throwFt * (1.0 - t) + tab[i + 1].throwFt * t
  {
    BracketExists(tab, cfm);
    var i := FirstBracket(tab, cfm, 0).value;
    forall k | 0 <= k < i ensures !(tab[k].cfm <= cfm <= tab[k + 1].cfm) {
      assert !Brackets(tab, cfm, k);
    }
    BelowBeforeBracket(tab, cfm, i);
    var t := (cfm - tab[i].cfm) / (tab[i + 1].cfm - tab[i].cfm);
    FractionInUnit(cfm - tab[i].cfm, tab[i + 1].cfm - tab[i].cfm);
    assert 0.0 <= t <= 1.0;
  }

  lemma FractionInUnit(a: real, b: real)
    requires 0.0 <= a <= b && 0.0 < b
    ensures 0.0 <= a / b <= 1.0
  {
    assert a / b * b == a;
  }

  /** Smallest and largest throw of a table. */
  function MinThrow(tab: seq<ThrowPoint>): (lo: real)
    requires |tab| > 0
    ensures forall k :: 0 <= k < |tab| ==> lo <= tab[k].throwFt
    ensures exists k :: 0 <= k < |tab| && lo == tab[k].throwFt
  {
    if |tab| == 1 then tab[0].throwFt
    else
      var rest := MinThrow(tab[1..]);
      assert forall k :: 1 <= k < |tab| ==> tab[k] == tab[1..][k - 1];
      if tab[0].throwFt <= rest then tab[0].throwFt else rest
  }

  function MaxThrow(tab: seq<ThrowPoint>): (hi: real)
    requires |tab| > 0
    ensures forall k :: 0 <= k < |tab| ==> tab[k].throwFt <= hi
    ensures exists k :: 0 <= k < |tab| && hi == tab[k].throwFt
  {
    if |tab| == 1 then tab[0].throwFt
    else
      var rest := MaxThrow(tab[1..]);
      assert forall k :: 1 <= k < |tab| ==> tab[k] == tab[1..][k - 1];
      if rest <= tab[0].throwFt then tab[0].throwFt else rest
  }

  lemma Between(a: real, b: real, t: real, x: real, lo: real, hi: real)
    requires 0.0 <= t <= 1.0 && x == a * (1.0 - t) + b * t
    requires lo <= a <= hi && lo <= b <= hi
    ensures lo <= x <= hi
  {
    assert a * (1.0 - t) + b * t == a + t * (b - a);
    if a <= b {
      MulNonNeg(t, b - a);
      MulNonNeg(1.0 - t, b - a);
    } else {
      MulNonNeg(t, a - b);
      MulNonNeg(1.0 - t, a - b);
    }
  }

  lemma MulNonNeg(x: real, y: real)
    requires 0.0 <= x && 0.0 <= y
    ensures 0.0 <= x * y
  {
  }

  /** The interpolated throw never leaves the range of the table's throws. */
  lemma ThrowWithinTable(tab: seq<ThrowPoint>, cfm: real)
    requires |tab| > 0
    ensures MinThrow(tab) <= ThrowFt(tab, cfm) <= MaxThrow(tab)
  {
    var lo, hi := MinThrow(tab), MaxThrow(tab);
    var last := |tab| - 1;
    if cfm <= tab[0].cfm {
      assert lo <= tab[0].throwFt <= hi;
    } else if cfm >= tab[last].cfm {
      assert lo <= tab[last].throwFt <= hi;
    } else {
      var i := ThrowBetweenSegmentEnds(tab, cfm);
      assert lo <= tab[i].throwFt <= hi;
      assert lo <= tab[i + 1].throwFt <= hi;
    }
  }

  /** Strictly inside the table the throw lies between the throws at the ends
      of the segment used. */
  lemma ThrowBetweenSegmentEnds(tab: seq<ThrowPoint>, cfm: real) returns (i: int)
    requires |tab| > 0 && tab[0].cfm < cfm < tab[|tab| - 1].cfm
    ensures 0 <= i < |tab| - 1
    ensures var a, b := tab[i].throwFt, tab[i + 1].throwFt;
      (a <= ThrowFt(tab, cfm) <= b) || (b <= ThrowFt(tab, cfm) <= a)
  {
    ThrowInterior(tab, cfm);
    i := FirstBracket(tab, cfm, 0).value;
    var t := (cfm - tab[i].cfm) / (tab[i + 1].cfm - tab[i].cfm);
    var a, b := tab[i].throwFt, tab[i + 1].throwFt;
    var v := ThrowFt(tab, cfm);
    assert v == a * (1.0 - t) + b * t;
    if a <= b {
      Between(a, b, t, v, a, b);
    } else {
      Between(a, b, t, v, b, a);
    }
  }

  /** Airflow strictly increasing along the table. */
  ghost predicate StrictlyIncreasing(tab: seq<ThrowPoint>)
  {
    forall a, b :: 0 <= a < b < |tab| ==> tab[a].cfm < tab[b].cfm
  }

  /** At a breakpoint of a strictly increasing table the throw is exactly
      that row's throw. */
  lemma ThrowAtBreakpoint(tab: seq<ThrowPoint>, k: int)
    requires StrictlyIncreasing(tab) && 0 <= k < |tab|
    ensures ThrowFt(tab, tab[k].cfm) * FtToM == tab[k].throwFt * 0.3048
  {
    var cfm := tab[k].cfm;
    if 0 < k < |tab| - 1 {
      forall j | 0 <= j < k - 1 ensures !Brackets(tab, cfm, j) {
        assert tab[j + 1].cfm < cfm;
      }
      assert Brackets(tab, cfm, k - 1);
      ThrowInterior(tab, cfm);
      var i := FirstBracket(tab, cfm, 0).value;
      assert i == k - 1;
      var t := (cfm - tab[i].cfm) / (tab[i + 1].cfm - tab[i].cfm);
      assert t == 1.0;
    }
  }

  // ---------------------------------------------------------------------------
  // Field superposition

  /** What one source adds at one cell: a Gaussian-weighted jet pointing away
      from a diffuser, or a constant-strength pull toward a return grille. */
  datatype Source =
    | Jet(u0: real, sigma: real)
    | Sink(strength: real)
  {
    predicate Ok() { Jet? ==> sigma >= 0.5 }
  }

  /** The offset added to every distance before dividing by it. */
  const Eps: real := 0.000001

  /** A jet's velocity at offset `(dx, dy)` from its diffuser: a Gaussian
      amplitude times the unit direction away from the diffuser. It points
      along the offset, away from the diffuser, and is slower than `u0`. */
  function JetAt(u0: real, sigma: real, m: Transcendentals, dx: real, dy: real): (c: Vec)
    requires sigma >= 0.5 && m.SqrtOk()
    ensures m.ExpOk() && u0 >= 0.0 ==> Along(c, dx, dy)
    ensures m.ExpOk() && u0 > 0.0 ==> c.Norm2() < u0 * u0
  {
    var r2 := Sq(dx) + Sq(dy);
    var amp := Amp(u0, sigma, m, r2);
    var d := m.sqrt(r2);
    JetFacts(u0, sigma, m, dx, dy, r2, amp, d);
    Vec(amp * dx / (d + Eps), amp * dy / (d + Eps))
  }

  /** Gaussian amplitude of a jet at squared distance `r2`: between 0 and
      `u0` for a non-negative `u0` and distance. */
  function Amp(u0: real, sigma: real, m: Transcendentals, r2: real): (a: real)
    requires sigma >= 0.5
    ensures m.ExpOk() && u0 >= 0.0 ==> 0.0 <= a
    ensures m.ExpOk() && u0 > 0.0 && r2 >= 0.0 ==> 0.0 < a <= u0
  {
    var e := m.exp(-r2 / (2.0 * sigma * sigma));
    AmpBounds(u0, sigma, r2, e);
    u0 * e
  }

  lemma AmpBounds(u0: real, sigma: real, r2: real, e: real)
    requires sigma >= 0.5
    ensures 0.0 < e && u0 >= 0.0 ==> 0.0 <= u0 * e
    ensures 0.0 < e && u0 > 0.0 && r2 >= 0.0 && (-r2 / (2.0 * sigma * sigma) <= 0.0 ==> e <= 1.0)
      ==> 0.0 < u0 * e <= u0
  {
    if 0.0 < e && u0 >= 0.0 {
      MulNonNeg(u0, e);
    }
    if 0.0 < e && u0 > 0.0 && r2 >= 0.0 && (-r2 / (2.0 * sigma * sigma) <= 0.0 ==> e <= 1.0) {
      MulPos(sigma, sigma);
      DivNonNeg(r2, 2.0 * sigma * sigma);
      MulPos(u0, e);
      MulNonNeg(u0, 1.0 - e);
      assert u0 * (1.0 - e) == u0 - u0 * e;
    }
  }

  /** The real-arithmetic facts behind `JetAt`'s contract. */
  lemma JetFacts(u0: real, sigma: real, m: Transcendentals, dx: real, dy: real,
                 r2: real, amp: real, d: real)
    requires sigma >= 0.5 && m.SqrtOk()
    requires r2 == Sq(dx) + Sq(dy) && amp == Amp(u0, sigma, m, r2) && d == m.sqrt(r2)
    ensures var c := Vec(amp * dx / (d + Eps), amp * dy / (d + Eps));
      m.ExpOk() && u0 >= 0.0 ==> Along(c, dx, dy)
    ensures var c := Vec(amp * dx / (d + Eps), amp * dy / (d + Eps));
      m.ExpOk() && u0 > 0.0 ==> c.Norm2() < u0 * u0
  {
    assert 0.0 <= d && d * d == r2;
    if m.ExpOk() && u0 >= 0.0 {
      JetGeometry(amp, d + Eps, dx, dy);
    }
    if m.ExpOk() && u0 > 0.0 {
      assert 0.0 < amp <= u0;
      PullGeometry(amp, dx, dy, d);
      SquareAtMost(amp, u0);
    }
  }

  lemma SquareAtMost(a: real, b: real)
    requires 0.0 <= a <= b
    ensures a * a <= b * b
  {
    MulNonNeg(a + b, b - a);
    assert (a + b) * (b - a) == b * b - a * a;
  }

  /** A return's pull at offset `(dx, dy)` from the cell to the return, at
      distance `d`: length `strength * d / (d + 1e-6)`, shorter than
      `strength`, pointing along the offset toward the return. */
  function SinkAt(strength: real, m: Transcendentals, dx: real, dy: real): (c: Vec)
    requires m.SqrtOk()
    ensures var d := m.sqrt(Sq(dx) + Sq(dy));
      strength > 0.0 ==>
        && c.Norm2() == Sq(PullLength(strength, d))
        && c.Norm2() < strength * strength
        && Along(c, dx, dy)
  {
    var d := m.sqrt(Sq(dx) + Sq(dy));
    SinkFacts(strength, m, dx, dy, d);
    Vec(strength * dx / (d + Eps), strength * dy / (d + Eps))
  }

  /** The real-arithmetic facts behind `SinkAt`'s contract. */
  lemma SinkFacts(strength: real, m: Transcendentals, dx: real, dy: real, d: real)
    requires m.SqrtOk() && d == m.sqrt(Sq(dx) + Sq(dy))
    ensures var c := Vec(strength * dx / (d + Eps), strength * dy / (d + Eps));
      strength > 0.0 ==>
        && c.Norm2() == Sq(PullLength(strength, d))
        && c.Norm2() < strength * strength
        && Along(c, dx, dy)
  {
    if strength > 0.0 {
      PullGeometry(strength, dx, dy, d);
    }
  }

  /** The contribution of source `src` of kind `k` at `cell`. */
  function At(k: Source, m: Transcendentals, cell: Point, src: Point): Vec
    requires k.Ok() && m.SqrtOk()
  {
    match k
    case Jet(u0, sigma) => JetAt(u0, sigma, m, cell.x - src.x, cell.y - src.y)
    case Sink(strength) => SinkAt(strength, m, src.x - cell.x, src.y - cell.y)
  }

  /** `At` as a function value of (cell, source). */
  function Contribution(k: Source, m: Transcendentals): (f: (Point, Point) -> Vec)
    requires k.Ok() && m.SqrtOk()
    ensures forall cell, src :: f(cell, src) == At(k, m, cell, src)
  {
    (cell, src) => At(k, m, cell, src)
  }

  /** The field at one cell: the sum of every source's contribution `f`. */
  function Accumulate(f: (Point, Point) -> Vec, sources: seq<Point>, cell: Point): Vec
  {
    if |sources| == 0 then Zero
    else Accumulate(f, sources[..|sources| - 1], cell).Add(f(cell, sources[|sources| - 1]))
  }

  /** Starts from a zero (ny, nx) field and adds each source's contribution
      at every cell, source by source. */
  method Superpose(g: Grid2D, f: (Point, Point) -> Vec, sources: seq<Point>) returns (field: array2<Vec>)
    requires g.WellFormed()
    ensures fresh(field)
    ensures field.Length0 == g.ny && field.Length1 == g.nx
    ensures forall j, i :: 0 <= j < g.ny && 0 <= i < g.nx ==>
      field[j, i] == Accumulate(f, sources, g.Cell(j, i))
  {
    field := new Vec[g.ny, g.nx]((j, i) => Zero);
    for s := 0 to |sources|
      invariant forall j, i :: 0 <= j < g.ny && 0 <= i < g.nx ==>
        field[j, i] == Accumulate(f, sources[..s], g.Cell(j, i))
    {
      AddSource(g, f, field, sources[..s], sources[s]);
      assert sources[..s] + [sources[s]] == sources[..s + 1];
    }
    assert sources[..|sources|] == sources;
  }

  /** One `field += contribution` step of the source loop. */
  method AddSource(g: Grid2D, f: (Point, Point) -> Vec, field: array2<Vec>, done: seq<Point>, src: Point)
    requires g.WellFormed()
    requires field.Length0 == g.ny && field.Length1 == g.nx
    requires forall j, i :: 0 <= j < g.ny && 0 <= i < g.nx ==>
      field[j, i] == Accumulate(f, done, g.Cell(j, i))
    modifies field
    ensures forall j, i :: 0 <= j < g.ny && 0 <= i < g.nx ==>
      field[j, i] == Accumulate(f, done + [src], g.Cell(j, i))
  {
    for j := 0 to g.ny
      invariant forall j', i :: 0 <= j' < j && 0 <= i < g.nx ==>
        field[j', i] == Accumulate(f, done, g.Cell(j', i)).Add(f(g.Cell(j', i), src))
      invariant forall j', i :: j <= j' < g.ny && 0 <= i < g.nx ==>
        field[j', i] == Accumulate(f, done, g.Cell(j', i))
    {
      AddSourceRow(g, f, field, done, src, j);
    }
    forall j, i | 0 <= j < g.ny && 0 <= i < g.nx
      ensures field[j, i] == Accumulate(f, done + [src], g.Cell(j, i))
    {
      AccumulateSnoc(f, done, src, g.Cell(j, i));
    }
  }

  /** The same step on row `j` only. */
  method AddSourceRow(g: Grid2D, f: (Point, Point) -> Vec, field: array2<Vec>, done: seq<Point>, src: Point, j: int)
    requires g.WellFormed()
    requires field.Length0 == g.ny && field.Length1 == g.nx && 0 <= j < g.ny
    requires forall i :: 0 <= i < g.nx ==> field[j, i] == Accumulate(f, done, g.Cell(j, i))
    modifies field
    ensures forall i :: 0 <= i < g.nx ==>
      field[j, i] == Accumulate(f, done, g.Cell(j, i)).Add(f(g.Cell(j, i), src))
    ensures forall j', i :: 0 <= j' < g.ny && j' != j && 0 <= i < g.nx ==> field[j', i] == old(field[j', i])
  {
    ghost var row := seq(g.nx, i requires 0 <= i < g.nx reads field => field[j, i]);
    for i := 0 to g.nx
      invariant forall i' :: 0 <= i' < i ==> field[j, i'] == row[i'].Add(f(g.Cell(j, i'), src))
      invariant forall i' :: i <= i' < g.nx ==> field[j, i'] == row[i']
      invariant forall j', i' :: 0 <= j' < g.ny && j' != j && 0 <= i' < g.nx ==> field[j', i'] == old(field[j', i'])
    {
      field[j, i] := field[j, i].Add(f(g.Cell(j, i), src));
    }
  }

  /** Adding one source adds its contribution. */
  lemma AccumulateSnoc(f: (Point, Point) -> Vec, s: seq<Point>, p: Point, cell: Point)
    ensures Accumulate(f, s + [p], cell) == Accumulate(f, s, cell).Add(f(cell, p))
  {
    assert (s + [p])[..|s|] == s;
  }

  /** Sum over a concatenation is the sum of the two sums. */
  lemma {:induction false} AccumulateAppend(f: (Point, Point) -> Vec, a: seq<Point>, b: seq<Point>, cell: Point)
    ensures Accumulate(f, a + b, cell) == Accumulate(f, a, cell).Add(Accumulate(f, b, cell))
    decreases |b|
  {
    if |b| == 0 {
      assert a + b == a;
    } else {
      var b', last := b[..|b| - 1], b[|b| - 1];
      assert b == b' + [last];
      assert a + b == (a + b') + [last];
      AccumulateAppend(f, a, b', cell);
      AccumulateSnoc(f, a + b', last, cell);
      AccumulateSnoc(f, b', last, cell);
    }
  }

  lemma MultisetCancel(a: seq<Point>, last: Point, b1: seq<Point>, b2: seq<Point>)
    requires multiset(a + [last]) == multiset(b1 + [last] + b2)
    ensures multiset(a) == multiset(b1 + b2)
  {
    assert multiset(a + [last]) == multiset(a) + multiset{last};
    assert multiset(b1 + [last] + b2) == multiset(b1) + multiset{last} + multiset(b2);
    assert multiset(b1 + b2) == multiset(b1) + multiset(b2);
    assert multiset(a) == multiset(a + [last]) - multiset{last};
    assert multiset(b1 + b2) == multiset(b1 + [last] + b2) - multiset{last};
  }

  /** The sum does not depend on the order of the sources. */
  lemma {:induction false} AccumulatePermutation(f: (Point, Point) -> Vec, a: seq<Point>, b: seq<Point>, cell: Point)
    requires multiset(a) == multiset(b)
    ensures Accumulate(f, a, cell) == Accumulate(f, b, cell)
    decreases |a|
  {
    if |a| == 0 {
      assert |b| == |multiset(b)| == 0;
    } else {
      var a', last := a[..|a| - 1], a[|a| - 1];
      assert a == a' + [last];
      assert last in multiset(b);
      var p :| 0 <= p < |b| && b[p] == last;
      var b1, b2 := b[..p], b[p + 1..];
      assert b == b1 + [last] + b2;
      MultisetCancel(a', last, b1, b2);
      AccumulatePermutation(f, a', b1 + b2, cell);
      AccumulateSnoc(f, a', last, cell);
      AccumulateAppend(f, b1, b2, cell);
      AccumulateAppend(f, b1 + [last], b2, cell);
      AccumulateSnoc(f, b1, last, cell);
    }
  }

  // ---------------------------------------------------------------------------
  // velocity_field and return_bias

  /** Spread of the Gaussian: at least 0.5 m. */
  function Sigma(t50M: real): (s: real)
    ensures s >= 0.5 && s >= 0.35 * t50M
    ensures s == 0.5 || s == 0.35 * t50M
  {
    if 0.35 * t50M < 0.5 then 0.5 else 0.35 * t50M
  }

  /** Jet amplitude from the per-outlet airflow: at least 0.1 m/s. */
  function U0(perCfm: real): (u: real)
    ensures u >= 0.1 && u >= perCfm / 1000.0
    ensures u == 0.1 || u == perCfm / 1000.0
  {
    if perCfm / 1000.0 < 0.1 then 0.1 else perCfm / 1000.0
  }

  /** The jet parameters `velocity_field` derives for one request. */
  function JetSource(catalog: map<string, DiffuserModel>, modelId: string, perCfm: real): (k: Source)
    requires CatalogOk(catalog, modelId)
    ensures k.Jet? && k.Ok() && k.u0 >= 0.1 && 2.0 * k.sigma * k.sigma > 0.0
  {
    var tab := LoadModel(catalog, modelId).throwsFpm[ThrowKey];
    Jet(U0(perCfm), Sigma(ThrowFt(tab, perCfm) * FtToM))
  }

  /** `velocity_field(G, diffuser_locs, per_cfm, model_id)`. */
  method VelocityField(g: Grid2D, locs: seq<Point>, perCfm: real, modelId: string,
                       catalog: map<string, DiffuserModel>, m: Transcendentals)
    returns (field: array2<Vec>)
    requires g.WellFormed() && CatalogOk(catalog, modelId) && m.SqrtOk()
    ensures fresh(field)
    ensures field.Length0 == g.ny && field.Length1 == g.nx
    ensures forall j, i :: 0 <= j < g.ny && 0 <= i < g.nx ==>
      field[j, i] == Accumulate(Contribution(JetSource(catalog, modelId, perCfm), m), locs, g.Cell(j, i))
    ensures |locs| == 0 ==> forall j, i :: 0 <= j < g.ny && 0 <= i < g.nx ==> field[j, i] == Zero
  {
    var model := LoadModel(catalog, modelId);
    var t50 := InterpolateThrow(model, perCfm, ThrowKey);
    var sigma := Sigma(t50);
    var u0 := U0(perCfm);
    field := Superpose(g, Contribution(Jet(u0, sigma), m), locs);
  }

  /** `return_bias(G, returns, strength)`. */
  method ReturnBias(g: Grid2D, grilles: seq<Point>, strength: real, m: Transcendentals)
    returns (fb: array2<Vec>)
    requires g.WellFormed() && m.SqrtOk()
    ensures fresh(fb)
    ensures fb.Length0 == g.ny && fb.Length1 == g.nx
    ensures forall j, i :: 0 <= j < g.ny && 0 <= i < g.nx ==>
      fb[j, i] == Accumulate(Contribution(Sink(strength), m), grilles, g.Cell(j, i))
    ensures |grilles| == 0 ==> forall j, i :: 0 <= j < g.ny && 0 <= i < g.nx ==> fb[j, i] == Zero
  {
    fb := Superpose(g, Contribution(Sink(strength), m), grilles);
  }

  /** A jet contribution is a non-negative multiple of the offset from the
      diffuser to the cell: it points away from the diffuser, and it is
      slower than the jet's `u0`. */
  lemma JetPointsAway(u0: real, sigma: real, m: Transcendentals, cell: Point, src: Point)
    requires sigma >= 0.5 && u0 >= 0.0 && m.Valid()
    ensures var c := At(Jet(u0, sigma), m, cell, src);
      var dx, dy := cell.x - src.x, cell.y - src.y;
      && Along(c, dx, dy)
      && (u0 > 0.0 ==> c.Norm2() < u0 * u0)
  {
    assert At(Jet(u0, sigma), m, cell, src) == JetAt(u0, sigma, m, cell.x - src.x, cell.y - src.y);
  }

  /** The direction facts of `JetAt`: a non-negative amplitude
      over a positive norm scales the offset without turning it. */
  lemma JetGeometry(amp: real, norm: real, dx: real, dy: real)
    requires amp >= 0.0 && norm > 0.0
    ensures var c := Vec(amp * dx / norm, amp * dy / norm);
      Along(c, dx, dy)
  {
    var q := amp / norm;
    DivNonNeg(amp, norm);
    Scaled(amp, norm, dx);
    Scaled(amp, norm, dy);
    ParallelNonNegative(q, dx, dy);
  }

  lemma DivNonNeg(a: real, n: real)
    requires 0.0 <= a && 0.0 < n
    ensures 0.0 <= a / n
  {
    assert a / n * n == a;
  }

  lemma Scaled(a: real, n: real, d: real)
    requires n > 0.0
    ensures a * d / n == (a / n) * d
  {
  }

  lemma ParallelNonNegative(q: real, dx: real, dy: real)
    requires q >= 0.0
    ensures (q * dx) * dy == (q * dy) * dx
    ensures (q * dx) * dx + (q * dy) * dy >= 0.0
  {
    assert (q * dx) * dx + (q * dy) * dy == q * (dx * dx + dy * dy);
    MulNonNeg(q, dx * dx + dy * dy);
  }

  /** A return's pull at a cell has length `strength * d / (d + 1e-6)`, where
      `d` is the distance to the return, so it is shorter than `strength`; and
      it points from the cell toward the return. */
  lemma SinkPull(strength: real, m: Transcendentals, cell: Point, ret: Point)
    requires strength > 0.0 && m.SqrtOk()
    ensures var c := At(Sink(strength), m, cell, ret);
      var dx, dy := ret.x - cell.x, ret.y - cell.y;
      var d := m.sqrt(Sq(dx) + Sq(dy));
      && c.Norm2() == Sq(PullLength(strength, d))
      && c.Norm2() < strength * strength
      && Along(c, dx, dy)
  {
    assert At(Sink(strength), m, cell, ret) == SinkAt(strength, m, ret.x - cell.x, ret.y - cell.y);
  }

  /** Length of a return's pull at distance `d`. */
  function PullLength(strength: real, d: real): real
    requires d >= 0.0
  {
    strength * d / (d + Eps)
  }

  /** The real-arithmetic core of `SinkPull`, for a distance `d >= 0` with
      `d^2 = dx^2 + dy^2`. */
  lemma PullGeometry(strength: real, dx: real, dy: real, d: real)
    requires strength > 0.0 && 0.0 <= d && d * d == Sq(dx) + Sq(dy)
    ensures var r := d + Eps;
      var c := Vec(strength * dx / r, strength * dy / r);
      && c.Norm2() == Sq(PullLength(strength, d))
      && c.Norm2() < strength * strength
      && Along(c, dx, dy)
  {
    var r := d + Eps;
    var c := Vec(strength * dx / r, strength * dy / r);
    var q := strength / r;
    DivNonNeg(strength, r);
    Scaled(strength, r, dx);
    Scaled(strength, r, dy);
    Scaled(strength, r, d);
    assert c == Vec(q * dx, q * dy);
    ParallelNonNegative(q, dx, dy);
    ScaledLength(q, dx, dy, d);
    assert c.Norm2() == (q * d) * (q * d);
    assert PullLength(strength, d) == q * d;
    FractionBelowOne(strength, d, r);
    SquareBelow(q * d, strength);
  }

  /** The squared length of `q * (dx, dy)` is `(q * d)^2` when `d^2 = dx^2 + dy^2`. */
  lemma ScaledLength(q: real, dx: real, dy: real, d: real)
    requires d * d == dx * dx + dy * dy
    ensures Vec(q * dx, q * dy).Norm2() == (q * d) * (q * d)
  {
    calc {
      Vec(q * dx, q * dy).Norm2();
      (q * dx) * (q * dx) + (q * dy) * (q * dy);
      (q * q) * (dx * dx + dy * dy);
      (q * q) * (d * d);
      (q * d) * (q * d);
    }
  }

  /** `s * d / (d + eps)` lies in `[0, s)` for `d >= 0`. */
  lemma FractionBelowOne(s: real, d: real, r: real)
    requires 0.0 < s && 0.0 <= d && r == d + Eps
    ensures 0.0 <= s / r * d < s
  {
    var f := d / r;
    assert f * r == d;
    assert f < 1.0;
    assert 0.0 <= f;
    assert s / r * d == s * f;
    assert s * f < s * 1.0;
  }

  lemma SquareBelow(a: real, b: real)
    requires 0.0 <= a < b
    ensures a * a < b * b
  {
    MulPos(a + b, b - a);
    assert (a + b) * (b - a) == b * b - a * a;
  }

  lemma MulPos(x: real, y: real)
    requires 0.0 < x && 0.0 < y
    ensures 0.0 < x * y
  {
  }

  /** Jets superpose: the field of `A ++ B` is the field of `A` plus the field
      of `B` (same per-outlet airflow), and reordering the diffusers leaves the
      field unchanged. */
  lemma FieldSuperposes(catalog: map<string, DiffuserModel>, modelId: string, perCfm: real,
                        m: Transcendentals, a: seq<Point>, b: seq<Point>, cell: Point)
    requires CatalogOk(catalog, modelId) && m.SqrtOk()
    ensures var f := Contribution(JetSource(catalog, modelId, perCfm), m);
      Accumulate(f, a + b, cell) == Accumulate(f, a, cell).Add(Accumulate(f, b, cell))
    ensures var f := Contribution(JetSource(catalog, modelId, perCfm), m);
      multiset(a) == multiset(b) ==> Accumulate(f, a, cell) == Accumulate(f, b, cell)
  {
    var f := Contribution(JetSource(catalog, modelId, perCfm), m);
    AccumulateAppend(f, a, b, cell);
    if multiset(a) == multiset(b) {
      AccumulatePermutation(f, a, b, cell);
    }
  }
}
