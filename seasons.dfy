/** The region season catalog: an ordered cascade of rules that picks a fixed
    partition of the twelve calendar months into named seasons. */
module Seasons {
  import opened Wrappers

  /** A calendar month, January = 1 ... December = 12. */
  type Month = m: int | 1 <= m <= 12 witness 1

  /** One named season and the calendar months it groups. */
  datatype Season = Season(name: string, months: seq<Month>)

  /** An ordered mapping from season name to months (a Python dict keeps insertion order). */
  type Catalog = seq<Season>

  /** Some season of `c` contains month `m`. */
  predicate Holds(c: Catalog, m: Month)
  {
    exists k :: 0 <= k < |c| && m in c[k].months
  }

  /** Every calendar month belongs to some season. */
  predicate Covers(c: Catalog)
  {
    forall m: Month :: Holds(c, m)
  }

  /** No month belongs to two seasons. */
  predicate Disjoint(c: Catalog)
  {
    forall k, l, m: Month :: 0 <= k < l < |c| && m in c[k].months ==> m !in c[l].months
  }

  /** Season names are distinct, as dictionary keys are. */
  predicate DistinctNames(c: Catalog)
  {
    forall k, l :: 0 <= k < l < |c| ==> c[k].name != c[l].name
  }

  /** The catalog invariant: an exhaustive, disjoint partition of months 1..12 under distinct names. */
  predicate IsPartition(c: Catalog)
  {
    Covers(c) && Disjoint(c) && DistinctNames(c)
  }

  const IndiaSeasons: Catalog := [
    Season("Pre-Monsoon", [3, 4, 5]),
    Season("Monsoon", [6, 7, 8, 9]),
    Season("Post-Monsoon", [10, 11]),
    Season("Winter", [12, 1, 2])
  ]

  const AustraliaSeasons: Catalog := [
    Season("Summer", [12, 1, 2]),
    Season("Autumn", [3, 4, 5]),
    Season("Winter", [6, 7, 8]),
    Season("Spring", [9, 10, 11])
  ]

  const USSeasons: Catalog := [
    Season("Winter", [12, 1, 2]),
    Season("Spring", [3, 4, 5]),
    Season("Summer", [6, 7, 8]),
    Season("Fall", [9, 10, 11])
  ]

  const DefaultSeasons: Catalog := [
    Season("DJF", [12, 1, 2]),
    Season("MAM", [3, 4, 5]),
    Season("JJAS", [6, 7, 8, 9]),
    Season("ON", [10, 11])
  ]

  function Sum(s: seq<real>): real
  {
    if s == [] then 0.0 else Sum(s[..|s| - 1]) + s[|s| - 1]
  }

  /** Arithmetic mean of a non-empty latitude range, in exact real arithmetic. */
  function Mean(s: seq<real>): real
    requires |s| > 0
  {
    Sum(s) / (|s| as real)
  }

  /** The Python guard `lat_range and lo <= np.mean(lat_range) <= hi`: an absent or
      empty range is falsy and never matches a band. */
  predicate InBand(latRange: Option<seq<real>>, lo: real, hi: real)
  {
    latRange.Some? && |latRange.value| > 0 && lo <= Mean(latRange.value) <= hi
  }

  predicate IndiaRule(latRange: Option<seq<real>>, region: Option<string>)
  {
    region == Some("India") || InBand(latRange, 8.0, 35.0)
  }

  predicate AustraliaRule(latRange: Option<seq<real>>, region: Option<string>)
  {
    region == Some("Australia") || InBand(latRange, -40.0, -10.0)
  }

  predicate USRule(latRange: Option<seq<real>>, region: Option<string>)
  {
    region == Some("US") || InBand(latRange, 25.0, 50.0)
  }

  /** The catalog for a region name and/or latitude range: the rules are tried in
      order India, Australia, US, and the first that holds wins; otherwise the
      default DJF/MAM/JJAS/ON catalog. */
  function DefineRegionSeasons(latRange: Option<seq<real>>, region: Option<string>): (c: Catalog)
    ensures |c| == 4 && IsPartition(c)
  {
    IndiaIsPartition();
    AustraliaIsPartition();
    USIsPartition();
    DefaultIsPartition();
    if IndiaRule(latRange, region) then IndiaSeasons
    else if AustraliaRule(latRange, region) then AustraliaSeasons
    else if USRule(latRange, region) then USSeasons
    else DefaultSeasons
  }

  /** A catalog is a partition when a season-of-month function places every month
      in a season, and each season's months are exactly those it is assigned. */
  lemma PartitionBySeasonOf(c: Catalog, seasonOf: Month -> nat)
    requires forall m: Month :: seasonOf(m) < |c|
    requires forall k, m: Month :: 0 <= k < |c| ==> (m in c[k].months <==> seasonOf(m) == k)
    requires DistinctNames(c)
    ensures IsPartition(c)
  {
    forall m: Month ensures Holds(c, m) {
      assert m in c[seasonOf(m)].months;
    }
    forall k, l, m: Month | 0 <= k < l < |c| && m in c[k].months ensures m !in c[l].months {
      assert seasonOf(m) == k;
    }
  }

  function IndiaSeasonOf(m: Month): nat
  {
    if 3 <= m <= 5 then 0 else if 6 <= m <= 9 then 1 else if 10 <= m <= 11 then 2 else 3
  }

  /** The India catalog is a partition of the calendar months. */
  lemma IndiaIsPartition()
    ensures IsPartition(IndiaSeasons)
  {
    var c := IndiaSeasons;
    forall k, m: Month | 0 <= k < |c| ensures m in c[k].months <==> IndiaSeasonOf(m) == k {
      if k == 0 { assert c[0].months == [3, 4, 5]; }
      else if k == 1 { assert c[1].months == [6, 7, 8, 9]; }
      else if k == 2 { assert c[2].months == [10, 11]; }
      else { assert c[3].months == [12, 1, 2]; }
    }
    PartitionBySeasonOf(c, IndiaSeasonOf);
  }

  /** The season index of a month in the three-month-quarter catalogs (Australia, US). */
  function QuarterSeasonOf(m: Month): nat
  {
    if m == 12 || m <= 2 then 0 else if m <= 5 then 1 else if m <= 8 then 2 else 3
  }

  /** The Australia catalog is a partition of the calendar months. */
  lemma AustraliaIsPartition()
    ensures IsPartition(AustraliaSeasons)
  {
    var c := AustraliaSeasons;
    forall k, m: Month | 0 <= k < |c| ensures m in c[k].months <==> QuarterSeasonOf(m) == k {
      if k == 0 { assert c[0].months == [12, 1, 2]; }
      else if k == 1 { assert c[1].months == [3, 4, 5]; }
      else if k == 2 { assert c[2].months == [6, 7, 8]; }
      else { assert c[3].months == [9, 10, 11]; }
    }
    PartitionBySeasonOf(c, QuarterSeasonOf);
  }

  /** The US catalog is a partition of the calendar months. */
  lemma USIsPartition()
    ensures IsPartition(USSeasons)
  {
    var c := USSeasons;
    forall k, m: Month | 0 <= k < |c| ensures m in c[k].months <==> QuarterSeasonOf(m) == k {
      if k == 0 { assert c[0].months == [12, 1, 2]; }
      else if k == 1 { assert c[1].months == [3, 4, 5]; }
      else if k == 2 { assert c[2].months == [6, 7, 8]; }
      else { assert c[3].months == [9, 10, 11]; }
    }
    PartitionBySeasonOf(c, QuarterSeasonOf);
  }

  function DefaultSeasonOf(m: Month): nat
  {
    if m == 12 || m <= 2 then 0 else if m <= 5 then 1 else if m <= 9 then 2 else 3
  }

  /** The default DJF/MAM/JJAS/ON catalog is a partition of the calendar months. */
  lemma DefaultIsPartition()
    ensures IsPartition(DefaultSeasons)
  {
    var c := DefaultSeasons;
    forall k, m: Month | 0 <= k < |c| ensures m in c[k].months <==> DefaultSeasonOf(m) == k {
      if k == 0 { assert c[0].months == [12, 1, 2]; }
      else if k == 1 { assert c[1].months == [3, 4, 5]; }
      else if k == 2 { assert c[2].months == [6, 7, 8, 9]; }
      else { assert c[3].months == [10, 11]; }
    }
    PartitionBySeasonOf(c, DefaultSeasonOf);
  }

  /** The four catalogs differ from one another, so which one is returned tells which rule fired. */
  lemma CatalogsDiffer()
    ensures IndiaSeasons != AustraliaSeasons && IndiaSeasons != USSeasons && IndiaSeasons != DefaultSeasons
    ensures AustraliaSeasons != USSeasons && AustraliaSeasons != DefaultSeasons
    ensures USSeasons != DefaultSeasons
  {
    assert IndiaSeasons[0].name != AustraliaSeasons[0].name;
    assert IndiaSeasons[0].name != USSeasons[0].name;
    assert IndiaSeasons[0].name != DefaultSeasons[0].name;
    assert AustraliaSeasons[0].name != USSeasons[0].name;
    assert AustraliaSeasons[0].name != DefaultSeasons[0].name;
    assert USSeasons[0].name != DefaultSeasons[0].name;
  }

  /** The India calendar is chosen exactly when the India rule holds, whatever else holds. */
  lemma IndiaSelectedIff(latRange: Option<seq<real>>, region: Option<string>)
    ensures DefineRegionSeasons(latRange, region) == IndiaSeasons <==> IndiaRule(latRange, region)
  {
    CatalogsDiffer();
  }

  /** The Australia calendar is chosen exactly when its rule holds and the India rule does not. */
  lemma AustraliaSelectedIff(latRange: Option<seq<real>>, region: Option<string>)
    ensures DefineRegionSeasons(latRange, region) == AustraliaSeasons
        <==> !IndiaRule(latRange, region) && AustraliaRule(latRange, region)
  {
    CatalogsDiffer();
  }

  /** The US calendar is chosen exactly when its rule is the first to hold. */
  lemma USSelectedIff(latRange: Option<seq<real>>, region: Option<string>)
    ensures DefineRegionSeasons(latRange, region) == USSeasons
        <==> !IndiaRule(latRange, region) && !AustraliaRule(latRange, region) && USRule(latRange, region)
  {
    CatalogsDiffer();
  }

  /** The default calendar is chosen exactly when no rule holds. */
  lemma DefaultSelectedIff(latRange: Option<seq<real>>, region: Option<string>)
    ensures DefineRegionSeasons(latRange, region) == DefaultSeasons
        <==> !IndiaRule(latRange, region) && !AustraliaRule(latRange, region) && !USRule(latRange, region)
  {
    CatalogsDiffer();
  }

  /** The tropical and mid-latitude bands overlap on [25, 35]; a mean there picks the
      India calendar even when the region is named "US" (or "Australia"). */
  lemma OverlapSelectsIndia(latRange: Option<seq<real>>, region: Option<string>)
    requires InBand(latRange, 25.0, 35.0)
    ensures DefineRegionSeasons(latRange, region) == IndiaSeasons
    ensures USRule(latRange, region)
  {
  }

  /** A latitude range (20, 40) has mean 30: with no region it selects the India calendar, not the US one. */
  lemma MeanThirtySelectsIndia()
    ensures DefineRegionSeasons(Some([20.0, 40.0]), None) == IndiaSeasons
  {
    assert Sum([20.0, 40.0]) == 60.0 by {
      assert [20.0, 40.0][..1] == [20.0];
      assert Sum([20.0]) == 20.0 by { assert [20.0][..0] == []; }
    }
  }

  /** With no usable latitude range and no known region name, the default calendar is returned. */
  lemma NoMatchGivesDefault(latRange: Option<seq<real>>, region: Option<string>)
    requires latRange == None || latRange == Some([])
    requires region != Some("India") && region != Some("Australia") && region != Some("US")
    ensures DefineRegionSeasons(latRange, region) == DefaultSeasons
  {
  }
}
