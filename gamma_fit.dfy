/** Gamma distribution fitting with the CDF clipped below 1. The numerics themselves (maximum-
    likelihood fit, CDF, inverse CDF) belong to an external statistics library and enter the
    model as uninterpreted functions. */
module GammaFit {
  import opened Wrappers

  /** Fitted gamma parameters: shape, location and scale. */
  datatype Params = Params(shape: real, loc: real, scale: real)

  /** The statistics library: `fit` returns None when fitting fails for any reason (no
      convergence, degenerate or empty sample, library error); `cdf` and `ppf` are the fitted
      distribution's CDF and inverse CDF. */
  datatype Gamma = Gamma(
    fit: seq<Option<real>> -> Option<Params>,
    cdf: (real, Params) -> real,
    ppf: (real, Params) -> real)

  /** The upper clipping bound applied to every CDF value, strictly below 1. */
  const CdfCeiling: real := 0.9999

  /** Clipping to [0, CdfCeiling], as numpy's clip(x, 0, 0.9999) does on a non-NaN value. */
  function Clip(x: real): (r: real)
    ensures 0.0 <= r <= CdfCeiling < 1.0
    ensures 0.0 <= x <= CdfCeiling ==> r == x
    ensures x < 0.0 ==> r == 0.0
    ensures x > CdfCeiling ==> r == CdfCeiling
  {
    if x < 0.0 then 0.0 else if x > CdfCeiling then CdfCeiling else x
  }

  /** A successful fit: the parameters and the clipped CDF value of every sample position
      (None where the sample value is missing, since the CDF of NaN is NaN). */
  datatype Fit = Fit(params: Params, cdf: seq<Option<real>>)

  /** The clipped CDF of one sample value under parameters `p`. */
  function ClippedCdf(g: Gamma, v: Option<real>, p: Params): Option<real>
  {
    if v.Some? then Some(Clip(g.cdf(v.value, p))) else None
  }

  /** Fit a gamma distribution to `sample` and evaluate its clipped CDF on the sample; a failed
      fit is the explicit None outcome and never an error. */
  function FitGammaCdf(g: Gamma, sample: seq<Option<real>>): (r: Option<Fit>)
    ensures r.None? <==> g.fit(sample).None?
    ensures r.Some? ==> r.value.params == g.fit(sample).value && |r.value.cdf| == |sample|
    ensures r.Some? ==> forall k :: 0 <= k < |sample| ==>
      && (r.value.cdf[k].None? <==> sample[k].None?)
      && (r.value.cdf[k].Some? ==> 0.0 <= r.value.cdf[k].value <= CdfCeiling)
      && (sample[k].Some? ==> r.value.cdf[k].value == Clip(g.cdf(sample[k].value, r.value.params)))
  {
    match g.fit(sample)
    case None => None
    case Some(p) => Some(Fit(p, seq(|sample|, k requires 0 <= k < |sample| => ClippedCdf(g, sample[k], p))))
  }
}
