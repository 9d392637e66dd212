/** The sampling mesh: a `Grid2D` record built once from the room extents and
    the cell spacing, never changed afterwards. */
module Grid {
  import opened Geometry
  import opened Wrappers

  /** Python's `int(q)` on a float: truncation toward zero. */
  function Trunc(q: real): (k: int)
    ensures 0.0 <= q ==> k == q.Floor
    ensures q < 0.0 ==> k as real - 1.0 < q <= k as real
  {
    if 0.0 <= q then q.Floor else -((-q).Floor)
  }

  function Max(a: int, b: int): int { if a < b then b else a }

  /** Cells along an axis of the given extent: at least 3. */
  function CellCount(extent: real, spacing: real): (n: int)
    requires spacing != 0.0
    ensures n >= 3
    ensures 0.0 <= extent / spacing ==> n - 1 <= Max(2, (extent / spacing).Floor)
  {
    Max(3, Trunc(extent / spacing) + 1)
  }

  /** `n` evenly spaced values from `a` to `b`, both ends included. */
  function Linspace(a: real, b: real, n: int): seq<real>
    requires n >= 2
  {
    seq(n, i => a + i as real * Step(a, b, n))
  }

  /** The distance between neighbouring linspace values. */
  function Step(a: real, b: real, n: int): real
    requires n >= 2
  {
    (b - a) / (n - 1) as real
  }

  /** `Linspace` has `n` entries, starts at `a`, ends at `b` and advances by
      the constant step `(b - a) / (n - 1)`. */
  lemma LinspaceShape(a: real, b: real, n: int)
    requires n >= 2
    ensures var r := Linspace(a, b, n);
      && |r| == n
      && r[0] == a && r[n - 1] == b
      && forall i :: 0 <= i < n - 1 ==> r[i + 1] - r[i] == (b - a) / (n - 1) as real
  {
    var r := Linspace(a, b, n);
    var step := Step(a, b, n);
    StepsCover(a, b, n);
    assert r[n - 1] == a + (n - 1) as real * step;
    forall i | 0 <= i < n - 1 ensures r[i + 1] - r[i] == step {
      OneMoreStep(i, step);
    }
  }

  lemma StepsCover(a: real, b: real, n: int)
    requires n >= 2
    ensures (n - 1) as real * Step(a, b, n) == b - a
  {
  }

  lemma OneMoreStep(k: int, step: real)
    ensures (k + 1) as real * step == k as real * step + step
  {
  }

  /** The grid record: extents, spacing, counts, axis vectors and the
      "xy"-indexed mesh, so that `xx[j][i] == x[i]` and `yy[j][i] == y[j]`. */
  datatype Grid2D = Grid2D(
    lx: real, ly: real, spacing: real,
    nx: int, ny: int,
    x: seq<real>, y: seq<real>,
    xx: seq<seq<real>>, yy: seq<seq<real>>)
  {
    ghost predicate WellFormed()
    {
      && nx >= 3 && ny >= 3
      && |x| == nx && |y| == ny
      && |xx| == ny && |yy| == ny
      && (forall j :: 0 <= j < ny ==> |xx[j]| == nx && |yy[j]| == nx)
      && (forall j, i :: 0 <= j < ny && 0 <= i < nx ==> xx[j][i] == x[i])
      && (forall j, i :: 0 <= j < ny && 0 <= i < nx ==> yy[j][i] == y[j])
    }

    /** `shape` of the mesh arrays: (rows, columns). */
    function Shape(): (int, int)
    {
      (ny, nx)
    }

    /** Centre of the cell in row `j`, column `i`. */
    function Cell(j: int, i: int): Point
      requires WellFormed()
      requires 0 <= j < ny && 0 <= i < nx
    {
      Point(xx[j][i], yy[j][i])
    }
  }

  /** `np.meshgrid(x, y, indexing="xy")`. */
  function MeshX(x: seq<real>, ny: nat): seq<seq<real>> { seq(ny, j => x) }
  function MeshY(y: seq<real>, nx: nat): seq<seq<real>> { seq(|y|, j requires 0 <= j < |y| => seq(nx, i => y[j])) }

  /** `Grid2D(Lx, Ly, spacing)`. A zero spacing makes the source divide by
      zero; that failure is `None`. */
  function MakeGrid(lx: real, ly: real, spacing: real): (r: Option<Grid2D>)
    ensures r.None? <==> spacing == 0.0
    ensures r.Some? ==> var g := r.value;
      && g.WellFormed()
      && g.lx == lx && g.ly == ly && g.spacing == spacing
      && g.Shape() == (g.ny, g.nx)
      && g.nx == Max(3, Trunc(lx / spacing) + 1)
      && g.ny == Max(3, Trunc(ly / spacing) + 1)
      && g.x[0] == spacing / 2.0 && g.x[g.nx - 1] == lx - spacing / 2.0
      && g.y[0] == spacing / 2.0 && g.y[g.ny - 1] == ly - spacing / 2.0
      && (forall i :: 0 <= i < g.nx - 1 ==> g.x[i + 1] - g.x[i] == (lx - spacing) / (g.nx - 1) as real)
      && (forall j :: 0 <= j < g.ny - 1 ==> g.y[j + 1] - g.y[j] == (ly - spacing) / (g.ny - 1) as real)
  {
    if spacing == 0.0 then None
    else
      var nx := CellCount(lx, spacing);
      var ny := CellCount(ly, spacing);
      var x := Linspace(spacing / 2.0, lx - spacing / 2.0, nx);
      var y := Linspace(spacing / 2.0, ly - spacing / 2.0, ny);
      LinspaceShape(spacing / 2.0, lx - spacing / 2.0, nx);
      LinspaceShape(spacing / 2.0, ly - spacing / 2.0, ny);
      Some(Grid2D(lx, ly, spacing, nx, ny, x, y, MeshX(x, ny), MeshY(y, nx)))
  }

  /** Linspace stays between its end points, in either order. */
  lemma LinspaceBounds(a: real, b: real, n: int, i: int)
    requires n >= 2 && 0 <= i < n
    ensures a <= b ==> a <= Linspace(a, b, n)[i] <= b
    ensures b <= a ==> b <= Linspace(a, b, n)[i] <= a
  {
    if a <= b {
      LinspaceAscending(a, b, n, i);
    } else {
      LinspaceDescending(a, b, n, i);
    }
  }

  lemma LinspaceAscending(a: real, b: real, n: int, i: int)
    requires n >= 2 && 0 <= i < n && a <= b
    ensures a <= Linspace(a, b, n)[i] <= b
  {
    var r := Linspace(a, b, n);
    LinspaceShape(a, b, n);
    DivNonNegative(b - a, (n - 1) as real);
    StepwiseMonotone(r, Step(a, b, n), 0, i);
    StepwiseMonotone(r, Step(a, b, n), i, n - 1);
  }

  lemma LinspaceDescending(a: real, b: real, n: int, i: int)
    requires n >= 2 && 0 <= i < n && b <= a
    ensures b <= Linspace(a, b, n)[i] <= a
  {
    var r := Linspace(a, b, n);
    LinspaceShape(a, b, n);
    StepNonPositive(a, b, n);
    StepwiseAntitone(r, Step(a, b, n), 0, i);
    StepwiseAntitone(r, Step(a, b, n), i, n - 1);
  }

  lemma StepNonPositive(a: real, b: real, n: int)
    requires n >= 2 && b <= a
    ensures Step(a, b, n) <= 0.0
  {
    StepsCover(a, b, n);
  }

  /** A sequence that advances by a constant non-negative step is
      non-decreasing. */
  lemma {:induction false} StepwiseMonotone(r: seq<real>, step: real, i: int, j: int)
    requires 0.0 <= step && 0 <= i <= j < |r|
    requires forall k :: 0 <= k < |r| - 1 ==> r[k + 1] - r[k] == step
    ensures r[i] <= r[j]
    decreases j - i
  {
    if i < j {
      StepwiseMonotone(r, step, i, j - 1);
      assert r[j] - r[j - 1] == step;
    }
  }

  /** A sequence that advances by a constant non-positive step is
      non-increasing. */
  lemma {:induction false} StepwiseAntitone(r: seq<real>, step: real, i: int, j: int)
    requires step <= 0.0 && 0 <= i <= j < |r|
    requires forall k :: 0 <= k < |r| - 1 ==> r[k + 1] - r[k] == step
    ensures r[j] <= r[i]
    decreases j - i
  {
    if i < j {
      StepwiseAntitone(r, step, i, j - 1);
      assert r[j] - r[j - 1] == step;
    }
  }

  /** The centres along one axis of extent `l`: all inside `[0, l]` once
      `l >= spacing/2`, and inside `[spacing/2, l - spacing/2]` once
      `l >= spacing`. */
  lemma AxisInsideRoom(l: real, spacing: real, i: int)
    requires 0.0 < spacing && 0 <= i < CellCount(l, spacing)
    ensures var c := Linspace(spacing / 2.0, l - spacing / 2.0, CellCount(l, spacing))[i];
      && (spacing / 2.0 <= l ==> 0.0 <= c <= l)
      && (spacing <= l ==> spacing / 2.0 <= c <= l - spacing / 2.0)
  {
    LinspaceBounds(spacing / 2.0, l - spacing / 2.0, CellCount(l, spacing), i);
  }

  /** Both axes of the grid: each axis is inside the room on its own
      condition, independently of the other axis. */
  lemma CellsInsideRoom(lx: real, ly: real, spacing: real)
    requires 0.0 < spacing
    ensures var g := MakeGrid(lx, ly, spacing).value;
      && (spacing / 2.0 <= lx ==> forall i :: 0 <= i < g.nx ==> 0.0 <= g.x[i] <= lx)
      && (spacing <= lx ==> forall i :: 0 <= i < g.nx ==> spacing / 2.0 <= g.x[i] <= lx - spacing / 2.0)
      && (spacing / 2.0 <= ly ==> forall j :: 0 <= j < g.ny ==> 0.0 <= g.y[j] <= ly)
      && (spacing <= ly ==> forall j :: 0 <= j < g.ny ==> spacing / 2.0 <= g.y[j] <= ly - spacing / 2.0)
  {
    var g := MakeGrid(lx, ly, spacing).value;
    forall i | 0 <= i < g.nx
      ensures spacing / 2.0 <= lx ==> 0.0 <= g.x[i] <= lx
      ensures spacing <= lx ==> spacing / 2.0 <= g.x[i] <= lx - spacing / 2.0
    {
      AxisInsideRoom(lx, spacing, i);
    }
    forall j | 0 <= j < g.ny
      ensures spacing / 2.0 <= ly ==> 0.0 <= g.y[j] <= ly
      ensures spacing <= ly ==> spacing / 2.0 <= g.y[j] <= ly - spacing / 2.0
    {
      AxisInsideRoom(ly, spacing, j);
    }
  }

  /** The centres are spaced strictly closer than `spacing`: the step is
      `(Lx - spacing) / (nx - 1)`, not `spacing`. */
  lemma StepBelowSpacing(lx: real, ly: real, spacing: real)
    requires 0.0 < spacing && 0.0 <= lx
    ensures var g := MakeGrid(lx, ly, spacing).value;
      (lx - spacing) / (g.nx - 1) as real < spacing
  {
    assert MakeGrid(lx, ly, spacing).value.nx == CellCount(lx, spacing);
    CountStepBelow(lx, spacing);
  }

  lemma CountStepBelow(lx: real, s: real)
    requires 0.0 < s && 0.0 <= lx
    ensures (lx - s) / (CellCount(lx, s) - 1) as real < s
  {
    var q := lx / s;
    assert q * s == lx;
    DivNonNegative(lx, s);
    var m := (CellCount(lx, s) - 1) as real;
    assert q.Floor as real <= m && 2.0 <= m;
    assert q < m + 1.0;
    MulBelow(q, m + 1.0, s);
    assert lx - s < s * m;
    QuotientBelow(lx - s, m, s);
  }

  lemma DivNonNegative(a: real, s: real)
    requires 0.0 <= a && 0.0 < s
    ensures 0.0 <= a / s
  {
    assert a / s * s == a;
  }

  lemma MulBelow(q: real, p: real, s: real)
    requires q < p && 0.0 < s
    ensures (q * s) < p * s
  {
  }

  lemma QuotientBelow(a: real, m: real, s: real)
    requires 0.0 < m && a < s * m
    ensures a / m < s
  {
    assert a / m * m == a;
  }

  /** A room narrower than half the spacing gets a last x centre below 0:
      the mesh then leaves the room. */
  lemma NarrowRoomLeavesFootprint(lx: real, ly: real, spacing: real)
    requires 0.0 < spacing && 0.0 <= lx < spacing / 2.0
    ensures var g := MakeGrid(lx, ly, spacing).value;
      g.nx == 3 && g.x[2] < 0.0
  {
    var q := lx / spacing;
    assert q * spacing == lx;
    assert q < 1.0;
  }
}
