/** Effective draft temperature (EDT) and the Air Diffusion Performance Index
    (ADPI) over the occupied-zone cells. The (ny, nx) arrays the engine passes
    in are taken here as their row-major flattening, one entry per cell. */
module EdtAdpi {
  import opened Geometry
  import opened Wrappers

  // ---------------------------------------------------------------------------
  // local_temperature and edt_field

  function Clip(a: real, lo: real, hi: real): (r: real)
    requires lo <= hi
    ensures lo <= r <= hi
    ensures lo <= a <= hi ==> r == a
  {
    if a < lo then lo else if hi < a then hi else a
  }

  /** Local air temperature at a cell of speed `v`: the supply temperature
      offset `deltaT` mixed out toward the room temperature `tr` by the
      factor `exp(-2 * clip(v, 0, 1))`. */
  function LocalTemperature(v: real, tr: real, deltaT: real, m: Transcendentals): (tx: real)
    requires m.ExpOk()
    ensures deltaT <= 0.0 ==> tr + deltaT <= tx <= tr
    ensures 0.0 <= deltaT ==> tr <= tx <= tr + deltaT
  {
    var mix := m.exp(-2.0 * Clip(v, 0.0, 1.0));
    MixedOffset(deltaT, mix);
    tr + deltaT * (1.0 - mix)
  }

  /** `d * (1 - mix)` lies between 0 and `d` when `mix` is in (0, 1]. */
  lemma MixedOffset(d: real, mix: real)
    requires 0.0 < mix <= 1.0
    ensures d <= 0.0 ==> d <= d * (1.0 - mix) <= 0.0
    ensures 0.0 <= d ==> 0.0 <= d * (1.0 - mix) <= d
  {
    var w := 1.0 - mix;
    assert 0.0 <= w < 1.0;
    if d <= 0.0 {
      assert d * w >= d * 1.0 by { assert d * (1.0 - w) <= 0.0; }
    } else {
      assert d * w <= d * 1.0 by { assert d * (1.0 - w) >= 0.0; }
    }
  }

  /** `edt_field`: the effective draft temperature of one cell. */
  function Edt(tx: real, tr: real, v: real): real
  {
    (tx - tr) - 8.0 * (v - 0.15)
  }

  /** Room temperature used by `compute_metrics`. */
  const RoomTemperature: real := 24.0

  /** Faster air at the same temperature always lowers the EDT, and still air
      at room temperature sits 1.2 K above zero EDT. */
  lemma EdtMonotone(tx: real, tr: real, v1: real, v2: real)
    requires v1 < v2
    ensures Edt(tx, tr, v2) < Edt(tx, tr, v1)
    ensures Edt(tr, tr, 0.0) == 1.2 && Edt(tr, tr, 0.15) == 0.0
  {
  }

  /** With cold supply air (`deltaT <= 0`), the EDT of the mixed air lies
      between `deltaT` and 0 plus the velocity term. */
  lemma EdtOfCooledCell(v: real, tr: real, deltaT: real, m: Transcendentals)
    requires m.ExpOk() && deltaT <= 0.0
    ensures var e := Edt(LocalTemperature(v, tr, deltaT, m), tr, v);
      deltaT - 8.0 * (v - 0.15) <= e <= -8.0 * (v - 0.15)
  {
  }

  // ---------------------------------------------------------------------------
  // Cell classification and counting

  /** The thresholds read from the constants file. */
  datatype Config = Config(tmin: real, tmax: real, vmax: real, vLow: real, vHigh: real)

  /** A cell passes when its EDT is within `[tmin, tmax]` (both ends included)
      and its speed is strictly below `vmax`. */
  predicate Passes(e: real, v: real, cfg: Config)
  {
    cfg.tmin <= e <= cfg.tmax && v < cfg.vmax
  }

  /** The EDT bounds are inclusive and the velocity cap is strict. */
  lemma PassBoundaries(v: real, cfg: Config)
    requires cfg.tmin <= cfg.tmax
    ensures v < cfg.vmax ==> Passes(cfg.tmin, v, cfg) && Passes(cfg.tmax, v, cfg)
    ensures !Passes(cfg.tmin, cfg.vmax, cfg)
    ensures forall e :: e < cfg.tmin || cfg.tmax < e ==> !Passes(e, v, cfg)
  {
  }

  /** Number of `true` entries. */
  function CountTrue(mask: seq<bool>): (c: nat)
    ensures c <= |mask|
  {
    if |mask| == 0 then 0
    else CountTrue(mask[..|mask| - 1]) + (if mask[|mask| - 1] then 1 else 0)
  }

  /** The count is 0 exactly when no entry is set, and `|mask|` exactly when
      every entry is. */
  lemma {:induction false} CountTrueExtremes(mask: seq<bool>)
    ensures CountTrue(mask) == 0 <==> forall k :: 0 <= k < |mask| ==> !mask[k]
    ensures CountTrue(mask) == |mask| <==> forall k :: 0 <= k < |mask| ==> mask[k]
  {
    if |mask| > 0 {
      var prefix := mask[..|mask| - 1];
      CountTrueExtremes(prefix);
      assert forall k :: 0 <= k < |prefix| ==> prefix[k] == mask[k];
    }
  }

  function EdtValues(tx: seq<real>, v: seq<real>): (e: seq<real>)
    requires |tx| == |v|
    ensures |e| == |v|
    ensures forall k :: 0 <= k < |v| ==> e[k] == (tx[k] - RoomTemperature) - 8.0 * (v[k] - 0.15)
  {
    seq(|v|, k requires 0 <= k < |v| => Edt(tx[k], RoomTemperature, v[k]))
  }

  function PassMask(e: seq<real>, v: seq<real>, cfg: Config): (mask: seq<bool>)
    requires |e| == |v|
  {
    seq(|v|, k requires 0 <= k < |v| => Passes(e[k], v[k], cfg))
  }

  function BelowMask(v: seq<real>, threshold: real): seq<bool>
  {
    seq(|v|, k requires 0 <= k < |v| => v[k] < threshold)
  }

  function AboveMask(v: seq<real>, threshold: real): seq<bool>
  {
    seq(|v|, k requires 0 <= k < |v| => v[k] > threshold)
  }

  /** `np.mean` of a mask; the mean of no cells is NaN, written `None`. */
  function Fraction(mask: seq<bool>): (r: Option<real>)
    ensures r.None? <==> |mask| == 0
    ensures r.Some? ==> 0.0 <= r.value <= 1.0
  {
    if |mask| == 0 then None
    else
      var c := CountTrue(mask);
      QuotientInUnit(c, |mask|);
      Some(c as real / |mask| as real)
  }

  lemma QuotientInUnit(c: nat, n: nat)
    requires 0 < n && c <= n
    ensures 0.0 <= c as real / n as real <= 1.0
  {
    var q := c as real / n as real;
    assert q * n as real == c as real;
  }

  /** `100 * np.mean(mask)`. */
  function Percent(mask: seq<bool>): (r: Option<real>)
    ensures r.None? <==> |mask| == 0
    ensures r.Some? ==> 0.0 <= r.value <= 100.0
  {
    match Fraction(mask)
    case None => None
    case Some(f) => Some(100.0 * f)
  }

  /** A comparison `x > t` on a possibly-NaN value: NaN compares false. */
  predicate Exceeds(x: Option<real>, t: real)
  {
    x.Some? && x.value > t
  }

  /** ADPI is the passing share of the cells, in [0, 1] whenever there is a
      cell, and 1 exactly when every cell passes. */
  lemma AdpiBounds(e: seq<real>, v: seq<real>, cfg: Config)
    requires |e| == |v| && 0 < |v|
    ensures var adpi := Fraction(PassMask(e, v, cfg));
      && adpi.Some? && 0.0 <= adpi.value <= 1.0
      && (adpi.value == 1.0 <==> forall k :: 0 <= k < |v| ==> Passes(e[k], v[k], cfg))
      && (adpi.value == 0.0 <==> forall k :: 0 <= k < |v| ==> !Passes(e[k], v[k], cfg))
  {
    var mask := PassMask(e, v, cfg);
    RatioExtremes(CountTrue(mask), |mask|);
    CountTrueExtremes(mask);
    assert forall k :: 0 <= k < |v| ==> (mask[k] <==> Passes(e[k], v[k], cfg));
  }

  /** `c / n` is 1 exactly when `c == n` and 0 exactly when `c == 0`. */
  lemma RatioExtremes(c: nat, n: nat)
    requires 0 < n
    ensures c as real / n as real == 1.0 <==> c == n
    ensures c as real / n as real == 0.0 <==> c == 0
  {
    assert c as real / n as real * n as real == c as real;
  }

  /** A field entirely below `vLow` is 100% stagnant; one entirely above
      `vHigh` is 100% high-velocity. */
  lemma UniformField(v: seq<real>, cfg: Config)
    requires 0 < |v|
    ensures (forall k :: 0 <= k < |v| ==> v[k] < cfg.vLow) ==> Percent(BelowMask(v, cfg.vLow)) == Some(100.0)
    ensures (forall k :: 0 <= k < |v| ==> v[k] > cfg.vHigh) ==> Percent(AboveMask(v, cfg.vHigh)) == Some(100.0)
  {
    RatioExtremes(|v|, |v|);
    if forall k :: 0 <= k < |v| ==> v[k] < cfg.vLow {
      var mask := BelowMask(v, cfg.vLow);
      assert forall k :: 0 <= k < |mask| ==> mask[k];
      CountTrueExtremes(mask);
    }
    if forall k :: 0 <= k < |v| ==> v[k] > cfg.vHigh {
      var mask := AboveMask(v, cfg.vHigh);
      assert forall k :: 0 <= k < |mask| ==> mask[k];
      CountTrueExtremes(mask);
    }
  }

  // ---------------------------------------------------------------------------
  // The EDT histogram: 20 equal bins over [-3, 2]

  const Bins: nat := 20

  /** Edge `i` of the histogram: `-3 + 0.25 i`, for `i` in `0 .. 20`. */
  function Edge(i: int): real
  {
    -3.0 + 0.25 * i as real
  }

  /** Centre of bin `i`, the midpoint of its two edges. */
  function Centre(i: int): (c: real)
    ensures c == -2.875 + 0.25 * i as real
  {
    (Edge(i) + Edge(i + 1)) / 2.0
  }

  /** The bin a value falls in: bin `i` is `[Edge(i), Edge(i+1))`, except
      that the last bin also takes its right edge `2`; values outside
      `[-3, 2]` fall in no bin. */
  function BinOf(x: real): (b: Option<nat>)
    ensures b.Some? ==> b.value < Bins
  {
    if x < -3.0 || 2.0 < x then None
    else if x == 2.0 then Some(Bins - 1)
    else
      var y := (x + 3.0) * 4.0;
      assert 0.0 <= y < 20.0;
      Some(y.Floor)
  }

  /** `BinOf` agrees with the edge description of the bins, in both
      directions. */
  lemma {:induction false} BinOfMatchesEdges(x: real, i: int)
    requires 0 <= i < Bins
    ensures BinOf(x) == Some(i) <==> (Edge(i) <= x < Edge(i + 1) || (i == Bins - 1 && x == Edge(Bins)))
    ensures BinOf(x).None? <==> x < Edge(0) || Edge(Bins) < x
  {
    if -3.0 <= x < 2.0 {
      var y := (x + 3.0) * 4.0;
      assert BinOf(x) == Some(y.Floor);
      assert Edge(i) <= x < Edge(i + 1) <==> i as real <= y < (i + 1) as real;
    }
  }

  /** The histogram counts as `np.histogram` returns them, built one value at
      a time. */
  function Histogram(s: seq<real>): (h: seq<nat>)
    ensures |h| == Bins
  {
    if |s| == 0 then seq(Bins, i => 0)
    else
      var h := Histogram(s[..|s| - 1]);
      match BinOf(s[|s| - 1])
      case None => h
      case Some(b) => h[b := h[b] + 1]
  }

  function Sum(h: seq<nat>): nat
  {
    if |h| == 0 then 0 else Sum(h[..|h| - 1]) + h[|h| - 1]
  }

  function InRangeMask(s: seq<real>): seq<bool>
  {
    seq(|s|, k requires 0 <= k < |s| => BinOf(s[k]).Some?)
  }

  function InBinMask(s: seq<real>, i: nat): seq<bool>
  {
    seq(|s|, k requires 0 <= k < |s| => BinOf(s[k]) == Some(i))
  }

  /** Each histogram count is the number of values in that bin. */
  lemma {:induction false} HistogramCountsBin(s: seq<real>, i: nat)
    requires i < Bins
    ensures Histogram(s)[i] == CountTrue(InBinMask(s, i))
  {
    if |s| > 0 {
      var p := s[..|s| - 1];
      HistogramCountsBin(p, i);
      assert InBinMask(s, i)[..|s| - 1] == InBinMask(p, i);
    }
  }

  lemma {:induction false} SumIncrement(h: seq<nat>, b: nat)
    requires b < |h|
    ensures Sum(h[b := h[b] + 1]) == Sum(h) + 1
  {
    var h' := h[b := h[b] + 1];
    if b == |h| - 1 {
      assert h'[..|h| - 1] == h[..|h| - 1];
    } else {
      assert h'[..|h| - 1] == h[..|h| - 1][b := h[b] + 1];
      SumIncrement(h[..|h| - 1], b);
    }
  }

  lemma {:induction false} SumZeros(n: nat)
    ensures Sum(seq(n, i => 0)) == 0
  {
    if n > 0 {
      assert seq(n, i => 0)[..n - 1] == seq(n - 1, i => 0);
      SumZeros(n - 1);
    }
  }

  /** The counts add up to the number of values inside [-3, 2], hence to at
      most the number of cells. */
  lemma {:induction false} HistogramTotal(s: seq<real>)
    ensures Sum(Histogram(s)) == CountTrue(InRangeMask(s)) <= |s|
  {
    if |s| == 0 {
      SumZeros(Bins);
    } else {
      var p := s[..|s| - 1];
      HistogramTotal(p);
      assert InRangeMask(s)[..|s| - 1] == InRangeMask(p);
      match BinOf(s[|s| - 1])
      case None =>
      case Some(b) => SumIncrement(Histogram(p), b);
    }
  }

  /** One histogram entry: the bin centre and its count. */
  datatype HistBin = HistBin(bin: real, count: nat)

  // ---------------------------------------------------------------------------
  // compute_metrics

  const HighVelocityWarning: string := "High-velocity area >10% of occupied zone"
  const StagnationWarning: string := "Large stagnation area (V<0.05 m/s)"

  /** The warnings, in the order the checks are made. */
  function Warnings(pctHigh: Option<real>, pctLow: Option<real>): (w: seq<string>)
    ensures HighVelocityWarning in w <==> Exceeds(pctHigh, 10.0)
    ensures StagnationWarning in w <==> Exceeds(pctLow, 25.0)
    ensures |w| == (if Exceeds(pctHigh, 10.0) then 1 else 0) + (if Exceeds(pctLow, 25.0) then 1 else 0)
  {
    (if Exceeds(pctHigh, 10.0) then [HighVelocityWarning] else [])
      + (if Exceeds(pctLow, 25.0) then [StagnationWarning] else [])
  }

  /** When both warnings fire, the high-velocity one comes first. */
  lemma WarningOrder(pctHigh: Option<real>, pctLow: Option<real>)
    requires Exceeds(pctHigh, 10.0) && Exceeds(pctLow, 25.0)
    ensures Warnings(pctHigh, pctLow) == [HighVelocityWarning, StagnationWarning]
  {
  }

  datatype Metrics = Metrics(
    adpi: Option<real>,
    pctLow: Option<real>,
    pctHigh: Option<real>,
    draftRiskAreaPct: Option<real>,
    edtPassFraction: Option<real>,
    edtHist: seq<HistBin>,
    edtValues: seq<real>,
    warnings: seq<string>)

  /** `compute_metrics(Vmag, Tx)`: one pass over the cells counts the passing,
      slow and fast cells and fills the histogram; the warnings are then
      appended. */
  method ComputeMetrics(v: seq<real>, tx: seq<real>, cfg: Config) returns (r: Metrics)
    requires |v| == |tx|
    ensures r.edtValues == EdtValues(tx, v)
    ensures r.adpi == Fraction(PassMask(r.edtValues, v, cfg))
    ensures r.edtPassFraction == r.adpi
    ensures r.pctLow == Percent(BelowMask(v, cfg.vLow))
    ensures r.pctHigh == Percent(AboveMask(v, cfg.vHigh))
    ensures r.draftRiskAreaPct == r.pctHigh
    ensures |r.edtHist| == Bins
    ensures forall i :: 0 <= i < Bins ==>
      r.edtHist[i] == HistBin(-2.875 + 0.25 * i as real, Histogram(r.edtValues)[i])
    ensures r.warnings == Warnings(r.pctHigh, r.pctLow)
  {
    var edt := EdtValues(tx, v);
    var n := |v|;
    var pass, low, high, hist := Tally(edt, v, cfg);
    var adpi := if n == 0 then None else Some(pass as real / n as real);
    var pctLow := if n == 0 then None else Some(100.0 * (low as real / n as real));
    var pctHigh := if n == 0 then None else Some(100.0 * (high as real / n as real));
    var bins := seq(Bins, i requires 0 <= i < Bins => HistBin(Centre(i), hist[i]));
    var warnings := [];
    if pctHigh.Some? && pctHigh.value > 10.0 {
      warnings := warnings + [HighVelocityWarning];
    }
    if pctLow.Some? && pctLow.value > 25.0 {
      warnings := warnings + [StagnationWarning];
    }
    r := Metrics(adpi, pctLow, pctHigh, pctHigh, adpi, bins, edt, warnings);
  }

  /** The single pass over the cells behind the mask means and the
      histogram. */
  method Tally(edt: seq<real>, v: seq<real>, cfg: Config) returns (pass: nat, low: nat, high: nat, hist: seq<nat>)
    requires |edt| == |v|
    ensures pass == CountTrue(PassMask(edt, v, cfg))
    ensures low == CountTrue(BelowMask(v, cfg.vLow))
    ensures high == CountTrue(AboveMask(v, cfg.vHigh))
    ensures hist == Histogram(edt)
  {
    var n := |v|;
    pass, low, high := 0, 0, 0;
    hist := seq(Bins, i => 0);
    ghost var passMask, lowMask, highMask := PassMask(edt, v, cfg), BelowMask(v, cfg.vLow), AboveMask(v, cfg.vHigh);
    for k := 0 to n
      invariant pass == CountTrue(passMask[..k])
      invariant low == CountTrue(lowMask[..k])
      invariant high == CountTrue(highMask[..k])
      invariant hist == Histogram(edt[..k])
    {
      assert passMask[..k + 1][..k] == passMask[..k];
      assert lowMask[..k + 1][..k] == lowMask[..k];
      assert highMask[..k + 1][..k] == highMask[..k];
      assert edt[..k + 1][..k] == edt[..k];
      if Passes(edt[k], v[k], cfg) { pass := pass + 1; }
      if v[k] < cfg.vLow { low := low + 1; }
      if v[k] > cfg.vHigh { high := high + 1; }
      match BinOf(edt[k]) {
        case None =>
        case Some(b) => hist := hist[b := hist[b] + 1];
      }
    }
    assert passMask[..n] == passMask;
    assert lowMask[..n] == lowMask;
    assert highMask[..n] == highMask;
    assert edt[..n] == edt;
  }

  /** The unit test's field: a non-empty field gives an ADPI in [0, 1], and a
      field that is fast everywhere raises the high-velocity warning. (The
      20-entry histogram is part of `ComputeMetrics`'s contract.) */
  lemma MetricsShape(v: seq<real>, tx: seq<real>, cfg: Config)
    requires |v| == |tx| && 0 < |v|
    ensures var adpi := Fraction(PassMask(EdtValues(tx, v), v, cfg));
      adpi.Some? && 0.0 <= adpi.value <= 1.0
    ensures var p := Percent(AboveMask(v, cfg.vHigh));
      (forall k :: 0 <= k < |v| ==> v[k] > cfg.vHigh) ==> HighVelocityWarning in Warnings(p, Percent(BelowMask(v, cfg.vLow)))
  {
    UniformField(v, cfg);
  }
}
