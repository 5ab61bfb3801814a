/** Quantile mapping per grid cell with a trend-preserving adjustment of the future series,
    and the grid traversal that applies it to every (latitude, longitude) cell of one season. */
module CdfMatching {
  import opened Wrappers
  import opened GammaFit
  import opened Stratify

  /** What happened at one cell; only a Corrected cell carries output columns, and it carries both. */
  datatype CellOutcome =
    | Corrected(hist: seq<Option<real>>, fut: seq<Option<real>>)
    | SkippedNoObservation
    | SkippedFitFailure

  /** Every value of the column is missing (numpy's isnan(column).all(), true of an empty column). */
  predicate AllMissing(col: seq<Option<real>>)
  {
    forall t :: 0 <= t < |col| ==> col[t].None?
  }

  /** The inverse CDF at an optional probability; NaN in, NaN out. */
  function PpfAt(g: Gamma, q: Option<real>, p: Params): Option<real>
  {
    if q.Some? then Some(g.ppf(q.value, p)) else None
  }

  /** Addition and subtraction with NaN propagation. */
  function Plus(a: Option<real>, b: Option<real>): Option<real>
  {
    if a.Some? && b.Some? then Some(a.value + b.value) else None
  }

  function Minus(a: Option<real>, b: Option<real>): Option<real>
  {
    if a.Some? && b.Some? then Some(a.value - b.value) else None
  }

  /** Bias correction of one cell, given its historical (h), future (f) and observed (o) columns.
      The cell is skipped when the observation column is entirely missing, or when any of the
      three fits fails; otherwise
        corrected hist = ppf_obs(cdf_hist(h))
        shift          = f - ppf_hist(cdf_fut(f))
        corrected fut  = ppf_obs(cdf_fut(f)) + shift. */
  function CorrectCell(g: Gamma, h: seq<Option<real>>, f: seq<Option<real>>, o: seq<Option<real>>)
    : (r: CellOutcome)
    ensures r.SkippedNoObservation? <==> AllMissing(o)
    ensures r.SkippedFitFailure? <==> !AllMissing(o) && (g.fit(h).None? || g.fit(o).None? || g.fit(f).None?)
    ensures r.Corrected? ==> |r.hist| == |h| && |r.fut| == |f|
    ensures r.Corrected? ==> forall t :: 0 <= t < |h| ==> (r.hist[t].None? <==> h[t].None?)
    ensures r.Corrected? ==> forall t :: 0 <= t < |f| ==> (r.fut[t].None? <==> f[t].None?)
  {
    if AllMissing(o) then SkippedNoObservation
    else
      var hFit, oFit, fFit := FitGammaCdf(g, h), FitGammaCdf(g, o), FitGammaCdf(g, f);
      if hFit.None? || oFit.None? || fFit.None? then SkippedFitFailure
      else
        var hp, op := hFit.value.params, oFit.value.params;
        var hCdf, fCdf := hFit.value.cdf, fFit.value.cdf;
        Corrected(
          seq(|h|, t requires 0 <= t < |h| => PpfAt(g, hCdf[t], op)),
          seq(|f|, t requires 0 <= t < |f| => Plus(PpfAt(g, fCdf[t], op), Minus(f[t], PpfAt(g, fCdf[t], hp)))))
  }

  /** The corrected historical value is the observed distribution's quantile at the historical
      value's clipped percentile under the historical fit. */
  lemma CorrectedHistIsObservedQuantile(g: Gamma, h: seq<Option<real>>, f: seq<Option<real>>,
                                        o: seq<Option<real>>, t: nat)
    requires CorrectCell(g, h, f, o).Corrected? && t < |h| && h[t].Some?
    ensures var q := Clip(g.cdf(h[t].value, g.fit(h).value));
      && 0.0 <= q <= CdfCeiling
      && CorrectCell(g, h, f, o).hist[t] == Some(g.ppf(q, g.fit(o).value))
  {
  }

  /** Trend preservation: at every present future value, the correction moves it by exactly the
      difference between the observed and the historical quantile at its own percentile. */
  lemma ShiftPreservesChangeSignal(g: Gamma, h: seq<Option<real>>, f: seq<Option<real>>,
                                   o: seq<Option<real>>, t: nat)
    requires CorrectCell(g, h, f, o).Corrected? && t < |f| && f[t].Some?
    ensures var q := Clip(g.cdf(f[t].value, g.fit(f).value));
      var r := CorrectCell(g, h, f, o);
      && 0.0 <= q <= CdfCeiling
      && r.fut[t].Some?
      && r.fut[t].value - f[t].value == g.ppf(q, g.fit(o).value) - g.ppf(q, g.fit(h).value)
  {
  }

  /** A future value is left unchanged exactly when the observed and historical quantiles at its
      percentile coincide; a missing future value stays missing. */
  lemma FutureUnchangedIff(g: Gamma, h: seq<Option<real>>, f: seq<Option<real>>,
                           o: seq<Option<real>>, t: nat)
    requires CorrectCell(g, h, f, o).Corrected? && t < |f|
    ensures f[t].None? ==> CorrectCell(g, h, f, o).fut[t] == f[t]
    ensures f[t].Some? ==>
      var q := Clip(g.cdf(f[t].value, g.fit(f).value));
      (CorrectCell(g, h, f, o).fut[t] == f[t] <==> g.ppf(q, g.fit(o).value) == g.ppf(q, g.fit(h).value))
  {
    if f[t].Some? {
      ShiftPreservesChangeSignal(g, h, f, o, t);
    }
  }

  /** Unchanged future values do not imply equal fits: under a location-scale inverse CDF, two
      different fits can share the quantile at the column's percentile. */
  lemma UnchangedFutureDespiteDifferentFits()
    ensures var g := Gamma(s => if s == [Some(9.0)] then Some(Params(1.0, 0.5, 1.0)) else Some(Params(1.0, 0.0, 2.0)),
                           (x, p) => 0.5, (q: real, p: Params) => p.loc + p.scale * q);
            var h, f, o := [Some(1.0)], [Some(3.0)], [Some(9.0)];
            && CorrectCell(g, h, f, o).Corrected?
            && CorrectCell(g, h, f, o).fut == f
            && g.fit(o) != g.fit(h)
  {
    var g := Gamma(s => if s == [Some(9.0)] then Some(Params(1.0, 0.5, 1.0)) else Some(Params(1.0, 0.0, 2.0)),
                   (x, p) => 0.5, (q: real, p: Params) => p.loc + p.scale * q);
    var h, f, o := [Some(1.0)], [Some(3.0)], [Some(9.0)];
    assert o[0].Some?;
    assert h != [Some(9.0)] && f != [Some(9.0)];
    var r := CorrectCell(g, h, f, o);
    assert r.fut[0] == Some(3.0);
    assert r.fut == f;
  }

  /** When the observed and historical fits coincide, the corrected future column is the future
      column itself. */
  lemma FutureIdentityWhenFitsCoincide(g: Gamma, h: seq<Option<real>>, f: seq<Option<real>>,
                                       o: seq<Option<real>>)
    requires CorrectCell(g, h, f, o).Corrected? && g.fit(o) == g.fit(h)
    ensures CorrectCell(g, h, f, o).fut == f
  {
    var r := CorrectCell(g, h, f, o);
    forall t | 0 <= t < |f| ensures r.fut[t] == f[t] {
      FutureUnchangedIff(g, h, f, o, t);
    }
  }

  /** When the observed and historical fits coincide and the library's inverse CDF undoes its
      clipped CDF on the historical values, the corrected historical column is the historical
      column itself. */
  lemma HistIdentityWhenFitsCoincide(g: Gamma, h: seq<Option<real>>, f: seq<Option<real>>,
                                     o: seq<Option<real>>)
    requires CorrectCell(g, h, f, o).Corrected? && g.fit(o) == g.fit(h)
    requires forall t :: 0 <= t < |h| && h[t].Some? ==>
      g.ppf(Clip(g.cdf(h[t].value, g.fit(h).value)), g.fit(h).value) == h[t].value
    ensures CorrectCell(g, h, f, o).hist == h
  {
    var r := CorrectCell(g, h, f, o);
    forall t | 0 <= t < |h| ensures r.hist[t] == h[t] {
      if h[t].Some? {
        CorrectedHistIsObservedQuantile(g, h, f, o, t);
      }
    }
  }

  /** The outcome of line 83's test `None in (hist_params, obs_params, fut_params, hist_cdf, fut_cdf)`
      as written. Python compares the items with None in order and stops at the first match. A
      failed fit returns None for its parameters, so it answers at one of the first three items.
      Once all three fits succeed, `hist_cdf == None` on a NumPy array compares element by element,
      and the truth value of the resulting boolean array raises ValueError unless the array has
      exactly one element (NumPy raises on an empty array too, from version 2.2); a one-element
      array answers False and the test moves on to `fut_cdf`. */
  datatype GuardResult = GuardSkips | GuardPasses | GuardRaises

  function NoneInAsWritten(hFit: Option<Fit>, oFit: Option<Fit>, fFit: Option<Fit>): GuardResult
  {
    if hFit.None? || oFit.None? || fFit.None? then GuardSkips
    else if |hFit.value.cdf| != 1 || |fFit.value.cdf| != 1 then GuardRaises
    else GuardPasses
  }

  /** One cell run as the code is written: the program raises, or the cell ends with an outcome. */
  datatype CellRun = Raises | Finished(outcome: CellOutcome)

  /** Lines 77-88 with line 83 as written. Where it finishes, it agrees with CorrectCell; it raises
      exactly when the cell has observations, all three fits succeed, and either column does not
      have exactly one time step. */
  function CorrectCellAsWritten(g: Gamma, h: seq<Option<real>>, f: seq<Option<real>>, o: seq<Option<real>>)
    : (r: CellRun)
    ensures r.Finished? ==> r.outcome == CorrectCell(g, h, f, o)
    ensures r.Raises? <==>
      !AllMissing(o) && g.fit(h).Some? && g.fit(o).Some? && g.fit(f).Some? && (|h| != 1 || |f| != 1)
  {
    if AllMissing(o) then Finished(SkippedNoObservation)
    else
      match NoneInAsWritten(FitGammaCdf(g, h), FitGammaCdf(g, o), FitGammaCdf(g, f))
      case GuardSkips => Finished(SkippedFitFailure)
      case GuardRaises => Raises
      case GuardPasses => Finished(CorrectCell(g, h, f, o))
  }

  /** As written, a cell whose historical column has two or more time steps is never corrected:
      it is skipped, or the program raises. */
  lemma AsWrittenNeverCorrectsLongColumns(g: Gamma, h: seq<Option<real>>, f: seq<Option<real>>, o: seq<Option<real>>)
    requires |h| >= 2
    ensures CorrectCellAsWritten(g, h, f, o).Raises? || !CorrectCellAsWritten(g, h, f, o).outcome.Corrected?
  {
  }

  /** A two-step cell with observations and fits that all succeed: the code as written raises at
      line 83, where the intended rule corrects the cell. */
  lemma TwoStepCellRaisesAsWritten()
    ensures var g := Gamma(s => Some(Params(1.0, 0.0, 1.0)), (x, p) => 0.5, (q, p) => q);
            var col := [Some(1.0), Some(2.0)];
            CorrectCellAsWritten(g, col, col, col).Raises? && CorrectCell(g, col, col, col).Corrected?
  {
    var g := Gamma(s => Some(Params(1.0, 0.0, 1.0)), (x, p) => 0.5, (q, p) => q);
    var col := [Some(1.0), Some(2.0)];
    assert col[0].Some?;
    assert !AllMissing(col);
  }

  /** A gridded series whose every field is nLat rows of nLon values. */
  predicate WellShaped(s: Series, nLat: nat, nLon: nat)
  {
    forall t :: 0 <= t < |s| ==> |s[t].field| == nLat && forall i :: 0 <= i < nLat ==> |s[t].field[i]| == nLon
  }

  /** The time series of one grid cell. */
  function Column(s: Series, nLat: nat, nLon: nat, i: nat, j: nat): (col: seq<Option<real>>)
    requires WellShaped(s, nLat, nLon) && i < nLat && j < nLon
    ensures |col| == |s|
  {
    seq(|s|, t requires 0 <= t < |s| => s[t].field[i][j])
  }

  /** The outcome at cell (i, j): it depends only on the three input columns at (i, j). */
  function CellAt(g: Gamma, hist: Series, fut: Series, obs: Series, nLat: nat, nLon: nat, i: nat, j: nat)
    : CellOutcome
    requires WellShaped(hist, nLat, nLon) && WellShaped(fut, nLat, nLon) && WellShaped(obs, nLat, nLon)
    requires i < nLat && j < nLon
  {
    CorrectCell(g, Column(hist, nLat, nLon, i, j), Column(fut, nLat, nLon, i, j), Column(obs, nLat, nLon, i, j))
  }

  /** The column expected in the corrected historical output at cell (i, j): the corrected
      column if the cell was corrected, all missing otherwise. */
  function HistColumnAt(g: Gamma, hist: Series, fut: Series, obs: Series, nLat: nat, nLon: nat, i: nat, j: nat)
    : (col: seq<Option<real>>)
    requires WellShaped(hist, nLat, nLon) && WellShaped(fut, nLat, nLon) && WellShaped(obs, nLat, nLon)
    requires i < nLat && j < nLon
    ensures |col| == |hist|
  {
    var r := CellAt(g, hist, fut, obs, nLat, nLon, i, j);
    if r.Corrected? then r.hist else seq(|hist|, t => None)
  }

  /** The column expected in the corrected future output at cell (i, j). */
  function FutColumnAt(g: Gamma, hist: Series, fut: Series, obs: Series, nLat: nat, nLon: nat, i: nat, j: nat)
    : (col: seq<Option<real>>)
    requires WellShaped(hist, nLat, nLon) && WellShaped(fut, nLat, nLon) && WellShaped(obs, nLat, nLon)
    requires i < nLat && j < nLon
    ensures |col| == |fut|
  {
    var r := CellAt(g, hist, fut, obs, nLat, nLon, i, j);
    if r.Corrected? then r.fut else seq(|fut|, t => None)
  }

  /** Locality: what is written at cell (i, j) depends only on the three inputs' columns at (i, j). */
  lemma CellReadsOnlyItsColumns(g: Gamma, hist: Series, fut: Series, obs: Series,
                                hist': Series, fut': Series, obs': Series, nLat: nat, nLon: nat, i: nat, j: nat)
    requires WellShaped(hist, nLat, nLon) && WellShaped(fut, nLat, nLon) && WellShaped(obs, nLat, nLon)
    requires WellShaped(hist', nLat, nLon) && WellShaped(fut', nLat, nLon) && WellShaped(obs', nLat, nLon)
    requires i < nLat && j < nLon
    requires Column(hist, nLat, nLon, i, j) == Column(hist', nLat, nLon, i, j)
    requires Column(fut, nLat, nLon, i, j) == Column(fut', nLat, nLon, i, j)
    requires Column(obs, nLat, nLon, i, j) == Column(obs', nLat, nLon, i, j)
    ensures HistColumnAt(g, hist, fut, obs, nLat, nLon, i, j) == HistColumnAt(g, hist', fut', obs', nLat, nLon, i, j)
    ensures FutColumnAt(g, hist, fut, obs, nLat, nLon, i, j) == FutColumnAt(g, hist', fut', obs', nLat, nLon, i, j)
  {
  }

  /** The corrected historical output of one season as a series: the input's time axis, each
      cell's column as HistColumnAt gives it. */
  function CorrectedHistSeries(g: Gamma, hist: Series, fut: Series, obs: Series, nLat: nat, nLon: nat)
    : (r: Series)
    requires WellShaped(hist, nLat, nLon) && WellShaped(fut, nLat, nLon) && WellShaped(obs, nLat, nLon)
    ensures |r| == |hist| && WellShaped(r, nLat, nLon)
    ensures forall t :: 0 <= t < |r| ==> r[t].time == hist[t].time && r[t].month == hist[t].month
  {
    seq(|hist|, t requires 0 <= t < |hist| =>
      Slice(hist[t].time, hist[t].month,
        seq(nLat, i requires 0 <= i < nLat =>
          seq(nLon, j requires 0 <= j < nLon => HistColumnAt(g, hist, fut, obs, nLat, nLon, i, j)[t]))))
  }

  /** The corrected future output of one season as a series on the future input's time axis. */
  function CorrectedFutSeries(g: Gamma, hist: Series, fut: Series, obs: Series, nLat: nat, nLon: nat)
    : (r: Series)
    requires WellShaped(hist, nLat, nLon) && WellShaped(fut, nLat, nLon) && WellShaped(obs, nLat, nLon)
    ensures |r| == |fut| && WellShaped(r, nLat, nLon)
    ensures forall t :: 0 <= t < |r| ==> r[t].time == fut[t].time && r[t].month == fut[t].month
  {
    seq(|fut|, t requires 0 <= t < |fut| =>
      Slice(fut[t].time, fut[t].month,
        seq(nLat, i requires 0 <= i < nLat =>
          seq(nLon, j requires 0 <= j < nLon => FutColumnAt(g, hist, fut, obs, nLat, nLon, i, j)[t]))))
  }

  /** As written, a pass over a season of two or more time steps that raises at no cell leaves
      both outputs entirely missing. */
  lemma AsWrittenPassLeavesAllMissing(g: Gamma, hist: Series, fut: Series, obs: Series, nLat: nat, nLon: nat)
    requires WellShaped(hist, nLat, nLon) && WellShaped(fut, nLat, nLon) && WellShaped(obs, nLat, nLon)
    requires |hist| >= 2
    requires forall i, j :: 0 <= i < nLat && 0 <= j < nLon ==>
      CorrectCellAsWritten(g, Column(hist, nLat, nLon, i, j), Column(fut, nLat, nLon, i, j),
                           Column(obs, nLat, nLon, i, j)).Finished?
    ensures forall i, j :: 0 <= i < nLat && 0 <= j < nLon ==>
      HistColumnAt(g, hist, fut, obs, nLat, nLon, i, j) == seq(|hist|, t => None) &&
      FutColumnAt(g, hist, fut, obs, nLat, nLon, i, j) == seq(|fut|, t => None)
  {
    forall i, j | 0 <= i < nLat && 0 <= j < nLon
      ensures HistColumnAt(g, hist, fut, obs, nLat, nLon, i, j) == seq(|hist|, t => None)
      ensures FutColumnAt(g, hist, fut, obs, nLat, nLon, i, j) == seq(|fut|, t => None)
    {
      AsWrittenNeverCorrectsLongColumns(g, Column(hist, nLat, nLon, i, j), Column(fut, nLat, nLon, i, j),
                                        Column(obs, nLat, nLon, i, j));
    }
  }

  /** Cell (a, b) comes before cell (i, j) in row-major traversal. */
  predicate Before(a: nat, b: nat, i: nat, j: nat)
  {
    a < i || (a == i && b < j)
  }

  /** Overwrite the time column of cell (i, j), the slice assignment `out[:, i, j] = col`. */
  method WriteColumn(out: array3<Option<real>>, i: nat, j: nat, col: seq<Option<real>>)
    requires i < out.Length1 && j < out.Length2 && |col| == out.Length0
    modifies out
    ensures forall t, a, b :: 0 <= t < out.Length0 && 0 <= a < out.Length1 && 0 <= b < out.Length2 ==>
      out[t, a, b] == if a == i && b == j then col[t] else old(out[t, a, b])
  {
    forall t | 0 <= t < out.Length0 {
      out[t, i, j] := col[t];
    }
  }

  /** The corrected historical output holds its final value at every cell before (i, j) in
      row-major order and is still all missing from (i, j) on. */
  ghost predicate HistFilled(g: Gamma, hist: Series, fut: Series, obs: Series, nLat: nat, nLon: nat,
                             out: array3<Option<real>>, i: nat, j: nat)
    requires WellShaped(hist, nLat, nLon) && WellShaped(fut, nLat, nLon) && WellShaped(obs, nLat, nLon)
    requires out.Length0 == |hist| && out.Length1 == nLat && out.Length2 == nLon
    reads out
  {
    forall t, a, b :: 0 <= t < |hist| && 0 <= a < nLat && 0 <= b < nLon ==>
      out[t, a, b] == if Before(a, b, i, j) then HistColumnAt(g, hist, fut, obs, nLat, nLon, a, b)[t] else None
  }

  /** The same for the corrected future output. */
  ghost predicate FutFilled(g: Gamma, hist: Series, fut: Series, obs: Series, nLat: nat, nLon: nat,
                            out: array3<Option<real>>, i: nat, j: nat)
    requires WellShaped(hist, nLat, nLon) && WellShaped(fut, nLat, nLon) && WellShaped(obs, nLat, nLon)
    requires out.Length0 == |fut| && out.Length1 == nLat && out.Length2 == nLon
    reads out
  {
    forall t, a, b :: 0 <= t < |fut| && 0 <= a < nLat && 0 <= b < nLon ==>
      out[t, a, b] == if Before(a, b, i, j) then FutColumnAt(g, hist, fut, obs, nLat, nLon, a, b)[t] else None
  }

  /** Writing cell (i, j)'s final column into the historical output moves the filled region one cell on. */
  method FillHistCell(g: Gamma, hist: Series, fut: Series, obs: Series, nLat: nat, nLon: nat,
                      out: array3<Option<real>>, i: nat, j: nat, col: seq<Option<real>>)
    requires WellShaped(hist, nLat, nLon) && WellShaped(fut, nLat, nLon) && WellShaped(obs, nLat, nLon)
    requires out.Length0 == |hist| && out.Length1 == nLat && out.Length2 == nLon && i < nLat && j < nLon
    requires col == HistColumnAt(g, hist, fut, obs, nLat, nLon, i, j)
    requires HistFilled(g, hist, fut, obs, nLat, nLon, out, i, j)
    modifies out
    ensures HistFilled(g, hist, fut, obs, nLat, nLon, out, i, j + 1)
  {
    WriteColumn(out, i, j, col);
  }

  /** Writing cell (i, j)'s final column into the future output moves the filled region one cell on. */
  method FillFutCell(g: Gamma, hist: Series, fut: Series, obs: Series, nLat: nat, nLon: nat,
                     out: array3<Option<real>>, i: nat, j: nat, col: seq<Option<real>>)
    requires WellShaped(hist, nLat, nLon) && WellShaped(fut, nLat, nLon) && WellShaped(obs, nLat, nLon)
    requires out.Length0 == |fut| && out.Length1 == nLat && out.Length2 == nLon && i < nLat && j < nLon
    requires col == FutColumnAt(g, hist, fut, obs, nLat, nLon, i, j)
    requires FutFilled(g, hist, fut, obs, nLat, nLon, out, i, j)
    modifies out
    ensures FutFilled(g, hist, fut, obs, nLat, nLon, out, i, j + 1)
  {
    WriteColumn(out, i, j, col);
  }

  /** A skipped cell's expected columns are all missing in both outputs. */
  lemma SkippedColumnsMissing(g: Gamma, hist: Series, fut: Series, obs: Series, nLat: nat, nLon: nat, i: nat, j: nat)
    requires WellShaped(hist, nLat, nLon) && WellShaped(fut, nLat, nLon) && WellShaped(obs, nLat, nLon)
    requires i < nLat && j < nLon && !CellAt(g, hist, fut, obs, nLat, nLon, i, j).Corrected?
    ensures forall t :: 0 <= t < |hist| ==> HistColumnAt(g, hist, fut, obs, nLat, nLon, i, j)[t] == None
    ensures forall t :: 0 <= t < |fut| ==> FutColumnAt(g, hist, fut, obs, nLat, nLon, i, j)[t] == None
  {
  }

  /** A skipped cell is already final in the historical output. */
  lemma SkippedHistIsFilled(g: Gamma, hist: Series, fut: Series, obs: Series, nLat: nat, nLon: nat,
                            out: array3<Option<real>>, i: nat, j: nat)
    requires WellShaped(hist, nLat, nLon) && WellShaped(fut, nLat, nLon) && WellShaped(obs, nLat, nLon)
    requires out.Length0 == |hist| && out.Length1 == nLat && out.Length2 == nLon && i < nLat && j < nLon
    requires forall t :: 0 <= t < |hist| ==> HistColumnAt(g, hist, fut, obs, nLat, nLon, i, j)[t] == None
    requires HistFilled(g, hist, fut, obs, nLat, nLon, out, i, j)
    ensures HistFilled(g, hist, fut, obs, nLat, nLon, out, i, j + 1)
  {
  }

  /** A skipped cell is already final in the future output. */
  lemma SkippedFutIsFilled(g: Gamma, hist: Series, fut: Series, obs: Series, nLat: nat, nLon: nat,
                           out: array3<Option<real>>, i: nat, j: nat)
    requires WellShaped(hist, nLat, nLon) && WellShaped(fut, nLat, nLon) && WellShaped(obs, nLat, nLon)
    requires out.Length0 == |fut| && out.Length1 == nLat && out.Length2 == nLon && i < nLat && j < nLon
    requires forall t :: 0 <= t < |fut| ==> FutColumnAt(g, hist, fut, obs, nLat, nLon, i, j)[t] == None
    requires FutFilled(g, hist, fut, obs, nLat, nLon, out, i, j)
    ensures FutFilled(g, hist, fut, obs, nLat, nLon, out, i, j + 1)
  {
  }

  /** Process cell (i, j): skip it, or overwrite its column in both outputs. */
  method CorrectCellInPlace(g: Gamma, hist: Series, fut: Series, obs: Series, nLat: nat, nLon: nat,
                            correctedHist: array3<Option<real>>, correctedFut: array3<Option<real>>,
                            i: nat, j: nat)
    requires WellShaped(hist, nLat, nLon) && WellShaped(fut, nLat, nLon) && WellShaped(obs, nLat, nLon)
    requires correctedHist.Length0 == |hist| && correctedHist.Length1 == nLat && correctedHist.Length2 == nLon
    requires correctedFut.Length0 == |fut| && correctedFut.Length1 == nLat && correctedFut.Length2 == nLon
    requires correctedHist != correctedFut && i < nLat && j < nLon
    requires HistFilled(g, hist, fut, obs, nLat, nLon, correctedHist, i, j)
    requires FutFilled(g, hist, fut, obs, nLat, nLon, correctedFut, i, j)
    modifies correctedHist, correctedFut
    ensures HistFilled(g, hist, fut, obs, nLat, nLon, correctedHist, i, j + 1)
    ensures FutFilled(g, hist, fut, obs, nLat, nLon, correctedFut, i, j + 1)
  {
    var outcome := CorrectCell(g, Column(hist, nLat, nLon, i, j), Column(fut, nLat, nLon, i, j),
                               Column(obs, nLat, nLon, i, j));
    if outcome.Corrected? {
      FillHistCell(g, hist, fut, obs, nLat, nLon, correctedHist, i, j, outcome.hist);
      FillFutCell(g, hist, fut, obs, nLat, nLon, correctedFut, i, j, outcome.fut);
    } else {
      SkippedColumnsMissing(g, hist, fut, obs, nLat, nLon, i, j);
      SkippedHistIsFilled(g, hist, fut, obs, nLat, nLon, correctedHist, i, j);
      SkippedFutIsFilled(g, hist, fut, obs, nLat, nLon, correctedFut, i, j);
    }
  }

  /** Correct every cell of latitude row i, one longitude at a time. */
  method CorrectRow(g: Gamma, hist: Series, fut: Series, obs: Series, nLat: nat, nLon: nat,
                    correctedHist: array3<Option<real>>, correctedFut: array3<Option<real>>, i: nat)
    requires WellShaped(hist, nLat, nLon) && WellShaped(fut, nLat, nLon) && WellShaped(obs, nLat, nLon)
    requires correctedHist.Length0 == |hist| && correctedHist.Length1 == nLat && correctedHist.Length2 == nLon
    requires correctedFut.Length0 == |fut| && correctedFut.Length1 == nLat && correctedFut.Length2 == nLon
    requires correctedHist != correctedFut && i < nLat
    requires HistFilled(g, hist, fut, obs, nLat, nLon, correctedHist, i, 0)
    requires FutFilled(g, hist, fut, obs, nLat, nLon, correctedFut, i, 0)
    modifies correctedHist, correctedFut
    ensures HistFilled(g, hist, fut, obs, nLat, nLon, correctedHist, i + 1, 0)
    ensures FutFilled(g, hist, fut, obs, nLat, nLon, correctedFut, i + 1, 0)
  {
    var j := 0;
    while j < nLon
      invariant 0 <= j <= nLon
      invariant HistFilled(g, hist, fut, obs, nLat, nLon, correctedHist, i, j)
      invariant FutFilled(g, hist, fut, obs, nLat, nLon, correctedFut, i, j)
    {
      CorrectCellInPlace(g, hist, fut, obs, nLat, nLon, correctedHist, correctedFut, i, j);
      j := j + 1;
    }
    assert forall a: nat, b: nat :: b < nLon ==> (Before(a, b, i, nLon) <==> Before(a, b, i + 1, 0));
  }

  /** Both outputs start all-missing; each cell, visited row by row, is either written in both
      outputs from its own input columns or left missing in both. */
  method ApplyCdfMatching(g: Gamma, hist: Series, fut: Series, obs: Series, nLat: nat, nLon: nat)
    returns (correctedHist: array3<Option<real>>, correctedFut: array3<Option<real>>)
    requires WellShaped(hist, nLat, nLon) && WellShaped(fut, nLat, nLon) && WellShaped(obs, nLat, nLon)
    ensures fresh(correctedHist) && fresh(correctedFut) && correctedHist != correctedFut
    ensures correctedHist.Length0 == |hist| && correctedHist.Length1 == nLat && correctedHist.Length2 == nLon
    ensures correctedFut.Length0 == |fut| && correctedFut.Length1 == nLat && correctedFut.Length2 == nLon
    ensures forall t, i, j :: 0 <= t < |hist| && 0 <= i < nLat && 0 <= j < nLon ==>
      correctedHist[t, i, j] == HistColumnAt(g, hist, fut, obs, nLat, nLon, i, j)[t]
    ensures forall t, i, j :: 0 <= t < |fut| && 0 <= i < nLat && 0 <= j < nLon ==>
      correctedFut[t, i, j] == FutColumnAt(g, hist, fut, obs, nLat, nLon, i, j)[t]
  {
    correctedHist := new Option<real>[|hist|, nLat, nLon]((t, i, j) => None);
    correctedFut := new Option<real>[|fut|, nLat, nLon]((t, i, j) => None);
    var i := 0;
    while i < nLat
      invariant 0 <= i <= nLat
      invariant HistFilled(g, hist, fut, obs, nLat, nLon, correctedHist, i, 0)
      invariant FutFilled(g, hist, fut, obs, nLat, nLon, correctedFut, i, 0)
    {
      CorrectRow(g, hist, fut, obs, nLat, nLon, correctedHist, correctedFut, i);
      i := i + 1;
    }
  }
}
