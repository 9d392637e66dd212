/** Deterministic diffuser placement (`greedy_layout`). */
module Optimizer {
  import opened Geometry
  import opened Grid

  function Min(a: int, b: int): int { if a < b then a else b }

  /** The fixed 2x2 layout used when exactly four diffusers are requested. */
  function QuadLayout(lx: real, ly: real): seq<Point>
  {
    [Point(lx * 0.3, ly * 0.3), Point(lx * 0.3, ly * 0.7),
     Point(lx * 0.7, ly * 0.3), Point(lx * 0.7, ly * 0.7)]
  }

  /** The room centre followed by the four near-quadrant points, in the order
      they are tried. */
  function Candidates(lx: real, ly: real): seq<Point>
  {
    [Point(lx / 2.0, ly / 2.0)] + QuadLayout(lx, ly)
  }

  /** Closed form of the placement: the 2x2 layout for four diffusers, and
      otherwise the first `min(max(count, 1), 5)` candidates. */
  function Layout(lx: real, ly: real, count: int): seq<Point>
  {
    if count == 4 then QuadLayout(lx, ly)
    else Candidates(lx, ly)[..Min(Max(count, 1), 5)]
  }

  /** `greedy_layout(G, count, min_wall)`: starts from the centre and appends
      quadrant points until `count` is reached or they run out. `minWall` is
      accepted and ignored, as in the source. */
  method GreedyLayout(g: Grid2D, count: int, minWall: real) returns (pts: seq<Point>)
    ensures pts == Layout(g.lx, g.ly, count)
  {
    if count == 4 {
      return [Point(g.lx * 0.3, g.ly * 0.3), Point(g.lx * 0.3, g.ly * 0.7),
              Point(g.lx * 0.7, g.ly * 0.3), Point(g.lx * 0.7, g.ly * 0.7)];
    }
    pts := [Point(g.lx / 2.0, g.ly / 2.0)];
    var fractions := [(0.3, 0.3), (0.3, 0.7), (0.7, 0.3), (0.7, 0.7)];
    ghost var cands := Candidates(g.lx, g.ly);
    for k := 0 to 4
      invariant pts == cands[..k + 1]
      invariant k + 1 <= Max(count, 1)
    {
      if |pts| >= count {
        break;
      }
      var (a, b) := fractions[k];
      pts := pts + [Point(g.lx * a, g.ly * b)];
    }
  }

  /** Four diffusers: exactly the 2x2 layout, in this order. */
  lemma FourIsQuad(lx: real, ly: real)
    ensures Layout(lx, ly, 4) ==
      [Point(0.3 * lx, 0.3 * ly), Point(0.3 * lx, 0.7 * ly),
       Point(0.7 * lx, 0.3 * ly), Point(0.7 * lx, 0.7 * ly)]
  {
  }

  /** Any other count: never empty, at most five points, centre first, and a
      prefix of the candidate list. */
  lemma OtherCountShape(lx: real, ly: real, count: int)
    requires count != 4
    ensures var r := Layout(lx, ly, count);
      && |r| == Min(Max(count, 1), 5)
      && 1 <= |r| <= 5
      && r[0] == Point(lx / 2.0, ly / 2.0)
      && r == Candidates(lx, ly)[..|r|]
  {
  }

  /** Every placed point lies in the room rectangle `[0, L] x [0, W]`. */
  lemma LayoutInsideRoom(lx: real, ly: real, count: int)
    requires 0.0 <= lx && 0.0 <= ly
    ensures forall p :: p in Layout(lx, ly, count) ==> 0.0 <= p.x <= lx && 0.0 <= p.y <= ly
  {
  }
}
