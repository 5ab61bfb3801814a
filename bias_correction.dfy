/** The orchestration: resolve the season catalog, stratify the three inputs by season, correct
    each season over the whole grid, and join the corrected seasons along the time axis in
    catalog order. */
module BiasCorrection {
  import opened Wrappers
  import opened Seasons
  import opened Stratify
  import opened GammaFit
  import opened CdfMatching

  /** The time axis of a series: each step's timestamp and month. */
  function Stamps(s: Series): (r: seq<(int, Month)>)
    ensures |r| == |s|
  {
    seq(|s|, t requires 0 <= t < |s| => (s[t].time, s[t].month))
  }

  /** A season sub-series of a well-shaped series is well shaped. */
  lemma FilterWellShaped(s: Series, months: seq<Month>, nLat: nat, nLon: nat)
    requires WellShaped(s, nLat, nLon)
    ensures WellShaped(Filter(s, months), nLat, nLon)
  {
    var r := Filter(s, months);
    forall t | 0 <= t < |r| ensures |r[t].field| == nLat && forall i :: 0 <= i < nLat ==> |r[t].field[i]| == nLon {
      assert r[t] in s;
    }
  }

  /** The corrected historical block of one season. */
  function SeasonHist(g: Gamma, hist: Series, fut: Series, obs: Series, nLat: nat, nLon: nat, months: seq<Month>)
    : (r: Series)
    requires WellShaped(hist, nLat, nLon) && WellShaped(fut, nLat, nLon) && WellShaped(obs, nLat, nLon)
    ensures Stamps(r) == Stamps(Filter(hist, months))
  {
    FilterWellShaped(hist, months, nLat, nLon);
    FilterWellShaped(fut, months, nLat, nLon);
    FilterWellShaped(obs, months, nLat, nLon);
    CorrectedHistSeries(g, Filter(hist, months), Filter(fut, months), Filter(obs, months), nLat, nLon)
  }

  /** The corrected future block of one season. */
  function SeasonFut(g: Gamma, hist: Series, fut: Series, obs: Series, nLat: nat, nLon: nat, months: seq<Month>)
    : (r: Series)
    requires WellShaped(hist, nLat, nLon) && WellShaped(fut, nLat, nLon) && WellShaped(obs, nLat, nLon)
    ensures Stamps(r) == Stamps(Filter(fut, months))
  {
    FilterWellShaped(hist, months, nLat, nLon);
    FilterWellShaped(fut, months, nLat, nLon);
    FilterWellShaped(obs, months, nLat, nLon);
    CorrectedFutSeries(g, Filter(hist, months), Filter(fut, months), Filter(obs, months), nLat, nLon)
  }

  /** Read a corrected output grid back as a series on the time axis of `like`. */
  function ToSeries(a: array3<Option<real>>, like: Series): (r: Series)
    requires a.Length0 == |like|
    reads a
  {
    seq(|like|, t requires 0 <= t < |like| reads a =>
      Slice(like[t].time, like[t].month,
        seq(a.Length1, i requires 0 <= i < a.Length1 reads a =>
          seq(a.Length2, j requires 0 <= j < a.Length2 reads a => a[t, i, j]))))
  }

  /** Joining blocks with the same time axes gives the same time axis. */
  lemma {:induction false} ConcatStamps(bs: seq<Series>, cs: seq<Series>)
    requires |bs| == |cs| && forall k :: 0 <= k < |bs| ==> Stamps(bs[k]) == Stamps(cs[k])
    ensures Stamps(Concat(bs)) == Stamps(Concat(cs))
  {
    if bs != [] {
      var n := |bs| - 1;
      ConcatStamps(bs[..n], cs[..n]);
      StampsAppend(Concat(bs[..n]), bs[n]);
      StampsAppend(Concat(cs[..n]), cs[n]);
    }
  }

  lemma StampsAppend(a: Series, b: Series)
    ensures Stamps(a + b) == Stamps(a) + Stamps(b)
  {
  }

  /** The corrected historical blocks, one per season of `c`, in catalog order. */
  function HistBlocks(g: Gamma, hist: Series, fut: Series, obs: Series, nLat: nat, nLon: nat, c: Catalog)
    : (bs: seq<Series>)
    requires WellShaped(hist, nLat, nLon) && WellShaped(fut, nLat, nLon) && WellShaped(obs, nLat, nLon)
    ensures |bs| == |c| && forall k :: 0 <= k < |c| ==> Stamps(bs[k]) == Stamps(Filter(hist, c[k].months))
  {
    seq(|c|, k requires 0 <= k < |c| => SeasonHist(g, hist, fut, obs, nLat, nLon, c[k].months))
  }

  /** The corrected future blocks, one per season of `c`, in catalog order. */
  function FutBlocks(g: Gamma, hist: Series, fut: Series, obs: Series, nLat: nat, nLon: nat, c: Catalog)
    : (bs: seq<Series>)
    requires WellShaped(hist, nLat, nLon) && WellShaped(fut, nLat, nLon) && WellShaped(obs, nLat, nLon)
    ensures |bs| == |c| && forall k :: 0 <= k < |c| ==> Stamps(bs[k]) == Stamps(Filter(fut, c[k].months))
  {
    seq(|c|, k requires 0 <= k < |c| => SeasonFut(g, hist, fut, obs, nLat, nLon, c[k].months))
  }

  /** Blocks on the season time axes of `s`, joined, have the time axis of `s` regrouped by season;
      under a partition that is as long as `s`. */
  lemma JoinedTimeAxis(bs: seq<Series>, s: Series, c: Catalog)
    requires IsPartition(c)
    requires |bs| == |c| && forall k :: 0 <= k < |c| ==> Stamps(bs[k]) == Stamps(Filter(s, c[k].months))
    ensures Stamps(Concat(bs)) == Stamps(Concat(Separate(s, c)))
    ensures |Concat(bs)| == |s|
  {
    ConcatStamps(bs, Separate(s, c));
    SeasonLengthsSum(s, c);
    assert |Stamps(Concat(bs))| == |Concat(bs)|;
  }

  /** Correct one season over the whole grid and read the two output grids back as series on
      the season's historical and future time axes. */
  method CorrectSeason(g: Gamma, h: Series, f: Series, o: Series, nLat: nat, nLon: nat)
    returns (hc: Series, fc: Series)
    requires WellShaped(h, nLat, nLon) && WellShaped(f, nLat, nLon) && WellShaped(o, nLat, nLon)
    ensures hc == CorrectedHistSeries(g, h, f, o, nLat, nLon)
    ensures fc == CorrectedFutSeries(g, h, f, o, nLat, nLon)
  {
    var histGrid, futGrid := ApplyCdfMatching(g, h, f, o, nLat, nLon);
    SameGrid(histGrid, h, CorrectedHistSeries(g, h, f, o, nLat, nLon), nLat, nLon);
    SameGrid(futGrid, f, CorrectedFutSeries(g, h, f, o, nLat, nLon), nLat, nLon);
    hc := ToSeries(histGrid, h);
    fc := ToSeries(futGrid, f);
  }

  /** Bias-correct the historical and future series against the observations: one corrected
      block per season, in catalog order, joined along the time axis. */
  method RunBiasCorrection(g: Gamma, hist: Series, fut: Series, obs: Series, nLat: nat, nLon: nat,
                           latRange: Option<seq<real>>, region: Option<string>)
    returns (histCorrected: Series, futCorrected: Series)
    requires WellShaped(hist, nLat, nLon) && WellShaped(fut, nLat, nLon) && WellShaped(obs, nLat, nLon)
    ensures var c := DefineRegionSeasons(latRange, region);
      && histCorrected == Concat(HistBlocks(g, hist, fut, obs, nLat, nLon, c))
      && futCorrected == Concat(FutBlocks(g, hist, fut, obs, nLat, nLon, c))
    ensures var c := DefineRegionSeasons(latRange, region);
      && Stamps(histCorrected) == Stamps(Concat(Separate(hist, c)))
      && Stamps(futCorrected) == Stamps(Concat(Separate(fut, c)))
    ensures |histCorrected| == |hist| && |futCorrected| == |fut|
  {
    ghost var c := DefineRegionSeasons(latRange, region);
    ghost var histBlocks, futBlocks := HistBlocks(g, hist, fut, obs, nLat, nLon, c), FutBlocks(g, hist, fut, obs, nLat, nLon, c);
    var histSeasons := SeparateSeasons(hist, latRange, region);
    var futSeasons := SeparateSeasons(fut, latRange, region);
    var obsSeasons := SeparateSeasons(obs, latRange, region);
    var histAll: seq<Series> := [];
    var futAll: seq<Series> := [];
    var k := 0;
    while k < |histSeasons|
      invariant 0 <= k <= |histSeasons|
      invariant histAll == histBlocks[..k] && futAll == futBlocks[..k]
    {
      FilterWellShaped(hist, c[k].months, nLat, nLon);
      FilterWellShaped(fut, c[k].months, nLat, nLon);
      FilterWellShaped(obs, c[k].months, nLat, nLon);
      var hc, fc := CorrectSeason(g, histSeasons[k].1, futSeasons[k].1, obsSeasons[k].1, nLat, nLon);
      TakeOneMore(histBlocks, k);
      TakeOneMore(futBlocks, k);
      histAll := histAll + [hc];
      futAll := futAll + [fc];
      k := k + 1;
    }
    TakeAll(histBlocks);
    TakeAll(futBlocks);
    histCorrected := Concat(histAll);
    futCorrected := Concat(futAll);
    JoinedTimeAxis(histAll, hist, c);
    JoinedTimeAxis(futAll, fut, c);
  }

  lemma TakeOneMore<T>(s: seq<T>, k: nat)
    requires k < |s|
    ensures s[..k + 1] == s[..k] + [s[k]]
  {
  }

  lemma TakeAll<T>(s: seq<T>)
    ensures s[..|s|] == s
  {
  }

  /** An output grid whose every value matches a series (on the same time axis) reads back as it. */
  lemma SameGrid(a: array3<Option<real>>, like: Series, expected: Series, nLat: nat, nLon: nat)
    requires a.Length0 == |like| == |expected| && a.Length1 == nLat && a.Length2 == nLon
    requires WellShaped(expected, nLat, nLon)
    requires forall t :: 0 <= t < |like| ==> expected[t].time == like[t].time && expected[t].month == like[t].month
    requires forall t, i, j :: 0 <= t < |like| && 0 <= i < nLat && 0 <= j < nLon ==> a[t, i, j] == expected[t].field[i][j]
    ensures ToSeries(a, like) == expected
  {
    var r := ToSeries(a, like);
    forall t | 0 <= t < |like| ensures r[t] == expected[t] {
      forall i | 0 <= i < nLat ensures r[t].field[i] == expected[t].field[i] {
        assert |r[t].field[i]| == nLon;
      }
    }
  }

  /** The corrected historical block of a season of a chronological historical input is chronological. */
  lemma CorrectedHistChronological(g: Gamma, hist: Series, fut: Series, obs: Series, nLat: nat, nLon: nat,
                                   months: seq<Month>)
    requires WellShaped(hist, nLat, nLon) && WellShaped(fut, nLat, nLon) && WellShaped(obs, nLat, nLon)
    requires Chronological(hist)
    ensures Chronological(SeasonHist(g, hist, fut, obs, nLat, nLon, months))
  {
    FilterChronological(hist, months);
    var sh := SeasonHist(g, hist, fut, obs, nLat, nLon, months);
    assert forall t :: 0 <= t < |sh| ==> sh[t].time == Stamps(sh)[t].0;
  }

  /** The corrected future block of a season of a chronological future input is chronological. */
  lemma CorrectedFutChronological(g: Gamma, hist: Series, fut: Series, obs: Series, nLat: nat, nLon: nat,
                                  months: seq<Month>)
    requires WellShaped(hist, nLat, nLon) && WellShaped(fut, nLat, nLon) && WellShaped(obs, nLat, nLon)
    requires Chronological(fut)
    ensures Chronological(SeasonFut(g, hist, fut, obs, nLat, nLon, months))
  {
    FilterChronological(fut, months);
    var sf := SeasonFut(g, hist, fut, obs, nLat, nLon, months);
    assert forall t :: 0 <= t < |sf| ==> sf[t].time == Stamps(sf)[t].0;
  }
}
