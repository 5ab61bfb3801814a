# Seasonal gamma quantile-mapping bias correction — Dafny model

This project models the discrete core of `quantile_mapping.py`. That script bias-corrects
gridded climate-model output (historical and future runs) against observations. It works per
season and per grid cell, using gamma quantile mapping with a trend-preserving adjustment of
the future run. The model covers:

- **Seasons** (`seasons.dfy`): `define_region_seasons`. It is an ordered cascade of four rules.
  Each rule is "region name, or the mean of the latitude range falls in a band", and the first
  rule that holds wins. Each rule returns a fixed catalog of four seasons. Every catalog is proved
  to be a disjoint, exhaustive partition of months 1..12 under distinct names. There is one iff
  lemma per catalog saying exactly when it is chosen.
- **Stratify** (`stratify.dfy`): `separate_seasons`. It is an order-preserving filter of the time
  axis by calendar month, one block per season. Under a partition, the blocks joined together
  are a permutation of the input (as multisets). So every time step lands in exactly one season,
  and the season lengths add up to the input length. Filtering distributes over concatenation
  and keeps a chronological series chronological.
- **GammaFit** (`gamma_fit.dfy`): `fit_gamma_cdf`. scipy's `gamma.fit`, `gamma.cdf` and
  `gamma.ppf` are uninterpreted functions, supplied as the fields of a `Gamma` value. A failed
  fit is an explicit `None`. The `np.clip(cdf, 0, 0.9999)` step is modelled exactly over `real`.
- **CdfMatching** (`cdf_matching.dfy`): `apply_cdf_matching`. `CorrectCell` is the pure per-cell
  policy. A cell is skipped when its observation column is all missing, or when any of the three
  fits fails. Otherwise it applies the formulas of lines 86-88. Lemmas state the quantile-mapping
  and shift algebra exactly. `ApplyCdfMatching` is the imperative nested latitude/longitude loop
  over two `array3` outputs that start all-missing. It is proved to leave each cell either written
  in both outputs from that cell's own input columns, or missing in both.
- **BiasCorrection** (`bias_correction.dfy`): `run_bias_correction`. It loops over the seasons
  in catalog order, corrects each season over the whole grid, and concatenates the blocks along
  time. The output is proved to equal the concatenation of the per-season specifications, and
  its time axis is the input's time axis regrouped by season.

Missing values (NaN) are `None` in an `Option<real>`. They propagate through the CDF, the
inverse CDF and arithmetic, as NaN does. A gridded series is a sequence of time slices. Each
slice carries a timestamp, its calendar month and a latitude x longitude field.

Where the code's evident intent and its text part ways, the model follows the text, except at
line 83 (see "## Findings"):

- The latitude bands are presumably meant not to compete with the region names, but India's band
  test (line 8) comes before the `region == "US"` test (line 22), and the tropical band [8, 35]
  and the mid-latitude band [25, 50] overlap. So a mean latitude in [25, 35] selects the India
  calendar even for region "US" (`OverlapSelectsIndia`).
- The clipping is meant to keep CDF values away from 1. `np.clip` lets a value equal 0.9999
  (line 66), so the proved bound is `<= 0.9999`, which is strictly below 1.

## Model

| member | source | states |
|---|---|---|
| `Seasons.DefineRegionSeasons` | quantile_mapping.py:7-35 | every catalog returned has four seasons and is a partition of months 1..12: exhaustive, pairwise disjoint, distinct season names |
| `Seasons.IndiaIsPartition` | quantile_mapping.py:9-14 | the India catalog (Pre-Monsoon, Monsoon, Post-Monsoon, Winter) partitions the twelve months |
| `Seasons.AustraliaIsPartition` | quantile_mapping.py:16-21 | the Australia catalog partitions the twelve months |
| `Seasons.USIsPartition` | quantile_mapping.py:23-28 | the US catalog partitions the twelve months |
| `Seasons.DefaultIsPartition` | quantile_mapping.py:30-35 | the default DJF/MAM/JJAS/ON catalog partitions the twelve months |
| `Seasons.IndiaSelectedIff` | quantile_mapping.py:8 | the India calendar is returned if and only if the region is "India" or the mean latitude lies in [8, 35], whatever else holds |
| `Seasons.AustraliaSelectedIff` | quantile_mapping.py:15 | the Australia calendar is returned if and only if the India rule fails and the Australia rule (name or mean in [-40, -10]) holds |
| `Seasons.USSelectedIff` | quantile_mapping.py:22 | the US calendar is returned if and only if the first two rules fail and the US rule (name or mean in [25, 50]) holds |
| `Seasons.DefaultSelectedIff` | quantile_mapping.py:29-35 | the default calendar is returned if and only if none of the three rules holds |
| `Seasons.OverlapSelectsIndia` | quantile_mapping.py:8-22 | a mean latitude in [25, 35] satisfies the US band yet selects the India calendar, for any region name |
| `Seasons.MeanThirtySelectsIndia` | quantile_mapping.py:8 | the latitude range (20, 40), mean 30, with no region selects the India calendar, not the US one |
| `Seasons.NoMatchGivesDefault` | quantile_mapping.py:29-35 | an absent or empty latitude range with an absent or unknown region yields the default calendar |
| `Stratify.Filter` | quantile_mapping.py:60 | a season's sub-series holds exactly the time steps whose month is in the season, and is no longer than the input |
| `Stratify.Separate` | quantile_mapping.py:60 | one block per season, in catalog order; block k holds exactly the time steps whose month is in season k |
| `Stratify.SeparateSeasons` | quantile_mapping.py:58-60 | one sub-series per season of the resolved catalog, in catalog order, each filtered by its months; joined, they are a permutation of the input |
| `Stratify.FilterDistributes` | quantile_mapping.py:60 | filtering distributes over concatenation of time ranges, so the filter keeps the original order |
| `Stratify.FilterChronological` | quantile_mapping.py:60 | a season's sub-series of a chronological series is chronological |
| `Stratify.SeparateIsPermutation` | quantile_mapping.py:58-60 | under an exhaustive, disjoint catalog, the season sub-series joined together are a permutation of the input |
| `Stratify.SeasonLengthsSum` | quantile_mapping.py:58-60 | under a partition, the season lengths add up to the input length |
| `Stratify.ExactlyOneSeason` | quantile_mapping.py:58-60 | under a partition, every time step of the input lies in exactly one season's sub-series |
| `GammaFit.Clip` | quantile_mapping.py:66 | the clipped value lies in [0, 0.9999] (strictly below 1); values already in range are unchanged; values below and above are clamped to the bounds |
| `GammaFit.FitGammaCdf` | quantile_mapping.py:62-69 | the fit outcome is None exactly when the library fit fails; otherwise it gives the fitted parameters and one CDF value per sample position, missing exactly where the sample is, each the clipped library CDF and within [0, 0.9999] |
| `CdfMatching.CorrectCell` | quantile_mapping.py:77-88 | the cell is skipped for lack of observations exactly when the observation column is all missing; it is skipped for a failed fit exactly when observations exist and one of the three fits fails; otherwise both corrected columns have their inputs' lengths and are missing exactly where the inputs are |
| `CdfMatching.CorrectedHistIsObservedQuantile` | quantile_mapping.py:86 | a corrected historical value is the observed-fit inverse CDF at the value's clipped historical-fit percentile, which lies in [0, 0.9999] |
| `CdfMatching.ShiftPreservesChangeSignal` | quantile_mapping.py:87-88 | corrected future minus future equals the observed-fit quantile minus the historical-fit quantile at the future value's own clipped percentile |
| `CdfMatching.FutureUnchangedIff` | quantile_mapping.py:87-88 | a present future value is left unchanged if and only if the observed-fit and historical-fit quantiles at its percentile coincide; a missing value stays missing |
| `CdfMatching.UnchangedFutureDespiteDifferentFits` | quantile_mapping.py:86-88 | the converse of "equal fits leave the future unchanged" fails: a cell whose observed and historical fits differ can still leave its future column unchanged |
| `CdfMatching.FutureIdentityWhenFitsCoincide` | quantile_mapping.py:86-88 | when the observed and historical fits coincide, the corrected future column equals the future column |
| `CdfMatching.HistIdentityWhenFitsCoincide` | quantile_mapping.py:86 | when the observed and historical fits coincide and the inverse CDF undoes the clipped CDF on the historical values, the corrected historical column equals the historical column |
| `CdfMatching.CorrectCellAsWritten` | quantile_mapping.py:77-88 | with line 83's `None in (...)` test as written (`NoneInAsWritten`: a failed fit answers True, and a CDF array's comparison with None raises unless it has exactly one element), a cell either ends as `CorrectCell` says, or raises, and it raises exactly when it has observations, all three fits succeed and a column does not have exactly one time step |
| `CdfMatching.AsWrittenNeverCorrectsLongColumns` | quantile_mapping.py:83-88 | as written, a cell with two or more historical time steps is never corrected: it is skipped or the program raises |
| `CdfMatching.TwoStepCellRaisesAsWritten` | quantile_mapping.py:83 | a cell of two observed time steps whose fits all succeed raises as written, where the intended rule corrects it |
| `CdfMatching.AsWrittenPassLeavesAllMissing` | quantile_mapping.py:75-91 | as written, a pass over a season of two or more time steps that raises at no cell leaves both outputs entirely missing |
| `CdfMatching.SkippedColumnsMissing` | quantile_mapping.py:77-84 | a cell that is not corrected (no observations, or a failed fit) is missing in both outputs, never in just one |
| `CdfMatching.CellReadsOnlyItsColumns` | quantile_mapping.py:77-88 | what is written at cell (i, j) depends only on the three inputs' columns at (i, j) |
| `CdfMatching.CorrectedHistSeries` | quantile_mapping.py:72-88 | the corrected historical output of a season keeps the historical input's shape and time axis |
| `CdfMatching.CorrectedFutSeries` | quantile_mapping.py:73-88 | the corrected future output of a season keeps the future input's shape and time axis |
| `CdfMatching.WriteColumn` | quantile_mapping.py:86 | the slice assignment `out[:, i, j] = col` writes column (i, j) and leaves every other cell unchanged |
| `CdfMatching.CorrectCellInPlace` | quantile_mapping.py:77-88 | after cell (i, j), both outputs hold their final values at every cell up to and including (i, j) in row-major order and are still missing after it |
| `CdfMatching.CorrectRow` | quantile_mapping.py:76-89 | after one latitude row, every cell up to and including that row holds its final value and every later cell is still missing |
| `CdfMatching.ApplyCdfMatching` | quantile_mapping.py:71-91 | the outputs are two new, distinct arrays with their inputs' shapes; at every cell they hold the cell's corrected columns if the cell was corrected and are missing otherwise, so a cell is written in both outputs or in neither, from its own input columns only |
| `BiasCorrection.SeasonHist` | quantile_mapping.py:103-106 | a season's corrected historical block has the time axis of that season's historical sub-series |
| `BiasCorrection.SeasonFut` | quantile_mapping.py:103-106 | a season's corrected future block has the time axis of that season's future sub-series |
| `BiasCorrection.HistBlocks` | quantile_mapping.py:101-108 | `corrected_hist_all` after the season loop: one corrected block per season, in catalog order, each on its season's historical time axis |
| `BiasCorrection.FutBlocks` | quantile_mapping.py:101-108 | `corrected_fut_all` after the season loop: one corrected block per season, in catalog order, each on its season's future time axis |
| `BiasCorrection.CorrectSeason` | quantile_mapping.py:103-106 | the grids returned for one season, read back along the season's time axes, are exactly the season's corrected series |
| `BiasCorrection.RunBiasCorrection` | quantile_mapping.py:93-111 | the outputs are the per-season corrected blocks joined in catalog order; their time axes are the inputs' time axes regrouped by season, so each output is as long as its input |
| `BiasCorrection.CorrectedHistChronological` | quantile_mapping.py:101-106 | the corrected historical block of every season of a chronological historical input is chronological |
| `BiasCorrection.CorrectedFutChronological` | quantile_mapping.py:101-106 | the corrected future block of every season of a chronological future input is chronological |
| `BiasCorrection.JoinedTimeAxis` | quantile_mapping.py:101-111 | season blocks on the season time axes of a series, joined, carry that series' time axis regrouped by season, and are as long as the series |
| `BiasCorrection.ConcatStamps` | quantile_mapping.py:110-111 | joining blocks with equal time axes gives equal time axes |

## Left out

- `load_and_preprocess` (lines 37-56) is not part of this model. It covers netCDF reading,
  leap-day removal, time slicing, spatial interpolation and the Kelvin offset, which are I/O and
  floating-point work in external libraries.
- scipy's `gamma.fit`, `gamma.cdf` and `gamma.ppf` are uninterpreted functions (the fields of
  `GammaFit.Gamma`). No maximum-likelihood fitting or special functions are modelled. How
  `gamma.fit` treats NaN inputs is folded into its opaque success or failure. An exception raised
  by `gamma.cdf` inside the `try` is folded into the fit's `None` as well.
- Floating point: all arithmetic (the mean of the latitude range, the shift, the sum) is exact
  `real` arithmetic. The identities proved (for example, corrected future equals future when the
  fits coincide) hold exactly here but only up to rounding in the program.
- `CdfMatching.FutureUnchangedIff`: the iff is stated on the two quantiles at the value's
  percentile, not on the fits. The converse of "equal fits leave the future unchanged" does not
  hold in the program: the gamma inverse CDF is `loc + scale * z(q, shape)`, so different fits
  can share the quantile at the column's percentiles (`UnchangedFutureDespiteDifferentFits`).
- `CdfMatching.HistIdentityWhenFitsCoincide`: the identity is proved under an explicit
  hypothesis that the inverse CDF undoes the clipped CDF. That hypothesis is a numerical fact
  about scipy that the model cannot derive, and it fails at values whose CDF exceeds 0.9999.
- `np.mean(lat_range)` is exact real arithmetic on a list or tuple. A NumPy-array latitude range
  (whose truthiness test raises) and NaN latitudes are not modelled.
- The concrete scenario of fitting H = [1..5], F = [2..6], O = [5..9] and checking the
  corrected ranges depends on the gamma numerics and is not modelled.
- Progress `print`s (lines 90, 102), including the per-row completion event, and the
  `to_netcdf` saving (lines 113-115) are output side effects and are left out.
- The unused `time_dim` argument (lines 71, 105) and xarray coordinate metadata other than the
  timestamp and month of each time step are left out.
- The spatial sizes `hist.sizes['lat']` and `hist.sizes['lon']` (line 105) are the parameters
  `nLat` and `nLon`. The three inputs must be well shaped with these sizes, which the code
  assumes and never checks.
- `RunBiasCorrection` takes a season's future and observation blocks by catalog position, not by
  name (line 104 looks them up by name). The three inputs are split with the same catalog, whose
  names are distinct, so the two agree.

## Findings

| source | as written | input that shows it | evidently intended | confidence | as-written member | corrected member |
|---|---|---|---|---|---|---|
| quantile_mapping.py:83 | `None in (..., hist_cdf, fut_cdf)` compares the CDF arrays with None once all three fits succeed; under current NumPy that gives a boolean array whose truth value raises ValueError unless it has exactly one element. Line 83 is outside the `try` of lines 63-69, so `apply_cdf_matching`, and with it `run_bias_correction`, aborts at the first such cell, and no cell with two or more time steps is ever corrected | a cell whose observed, historical and future columns are all [1, 2], with fits that all succeed | skip the cell if and only if one of the three fits failed | not executed | `CdfMatching.CorrectCellAsWritten`, `CdfMatching.TwoStepCellRaisesAsWritten`, `CdfMatching.AsWrittenPassLeavesAllMissing` | `CdfMatching.CorrectCell` |
