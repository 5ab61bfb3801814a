/** Seasonal stratification: the time axis of a gridded series filtered by calendar month, one
    sub-series per season of the catalog. */
module Stratify {
  import opened Wrappers
  import opened Seasons

  /** A lat x lon field of values; None stands for a missing (NaN) value. */
  type Field = seq<seq<Option<real>>>

  /** One time step of a gridded series: its timestamp, its calendar month and its field. */
  datatype Slice = Slice(time: int, month: Month, field: Field)

  /** A gridded series, indexed (time, latitude, longitude). */
  type Series = seq<Slice>

  /** Timestamps strictly increase along the time axis. */
  predicate Chronological(s: Series)
  {
    forall k, l :: 0 <= k < l < |s| ==> s[k].time < s[l].time
  }

  /** The time steps of `s` whose month is listed in `months`, in their original order. */
  function Filter(s: Series, months: seq<Month>): (r: Series)
    ensures |r| <= |s|
    ensures forall x :: x in r <==> x in s && x.month in months
  {
    if s == [] then []
    else
      var last := s[|s| - 1];
      assert s == s[..|s| - 1] + [last];
      Filter(s[..|s| - 1], months) + (if last.month in months then [last] else [])
  }

  /** One sub-series per season of `c`, in catalog order. */
  function Separate(s: Series, c: Catalog): (blocks: seq<Series>)
    ensures |blocks| == |c|
    ensures forall k, x :: 0 <= k < |c| ==> (x in blocks[k] <==> x in s && x.month in c[k].months)
  {
    seq(|c|, k requires 0 <= k < |c| => Filter(s, c[k].months))
  }

  /** Blocks joined end to end along the time axis. */
  function Concat(blocks: seq<Series>): Series
  {
    if blocks == [] then [] else Concat(blocks[..|blocks| - 1]) + blocks[|blocks| - 1]
  }

  /** The season sub-series of a series, keyed by season name in catalog order. */
  function SeparateSeasons(s: Series, latRange: Option<seq<real>>, region: Option<string>)
    : (r: seq<(string, Series)>)
    ensures var c := DefineRegionSeasons(latRange, region);
      && |r| == |c| == 4
      && (forall k :: 0 <= k < |r| ==> r[k].0 == c[k].name && r[k].1 == Filter(s, c[k].months))
      && multiset(Concat(seq(|r|, k requires 0 <= k < |r| => r[k].1))) == multiset(s)
  {
    var c := DefineRegionSeasons(latRange, region);
    var r := seq(|c|, k requires 0 <= k < |c| => (c[k].name, Filter(s, c[k].months)));
    SeparateIsPermutation(s, c);
    assert seq(|r|, k requires 0 <= k < |r| => r[k].1) == Separate(s, c);
    r
  }

  /** Filtering distributes over concatenation along time: the filter keeps the original order. */
  lemma {:induction false} FilterDistributes(a: Series, b: Series, months: seq<Month>)
    ensures Filter(a + b, months) == Filter(a, months) + Filter(b, months)
  {
    if b != [] {
      var last := b[|b| - 1];
      assert (a + b)[..|a + b| - 1] == a + b[..|b| - 1];
      FilterDistributes(a, b[..|b| - 1], months);
    } else {
      assert a + b == a;
    }
  }

  /** A season sub-series of a chronological series is chronological. */
  lemma {:induction false} FilterChronological(s: Series, months: seq<Month>)
    requires Chronological(s)
    ensures Chronological(Filter(s, months))
  {
    if s != [] {
      var init, last := s[..|s| - 1], s[|s| - 1];
      FilterChronological(init, months);
      var f := Filter(init, months);
      forall k | 0 <= k < |f| ensures f[k].time < last.time {
        assert f[k] in init;
      }
    }
  }

  /** Joining the blocks of a catalog is joining those of all but its last season, then the last. */
  lemma ConcatSeparateLast(s: Series, c: Catalog)
    requires c != []
    ensures Concat(Separate(s, c)) == Concat(Separate(s, c[..|c| - 1])) + Filter(s, c[|c| - 1].months)
  {
    assert Separate(s, c)[..|c| - 1] == Separate(s, c[..|c| - 1]);
  }

  /** Appending one time step `x` to the series adds it to the joined blocks once if its month
      lies in some season of a disjoint catalog, and not at all otherwise. */
  lemma {:induction false} SeparateSnoc(s: Series, x: Slice, c: Catalog)
    requires Disjoint(c)
    ensures multiset(Concat(Separate(s + [x], c)))
         == multiset(Concat(Separate(s, c))) + (if Holds(c, x.month) then multiset{x} else multiset{})
  {
    if c != [] {
      var init, last := c[..|c| - 1], c[|c| - 1];
      var sx := s + [x];
      assert Disjoint(init);
      SeparateSnoc(s, x, init);
      var inInit := if Holds(init, x.month) then multiset{x} else multiset{};
      var inLast := if x.month in last.months then multiset{x} else multiset{};
      assert multiset(Filter(sx, last.months)) == multiset(Filter(s, last.months)) + inLast by {
        assert sx[..|sx| - 1] == s;
      }
      ConcatSeparateLast(sx, c);
      ConcatSeparateLast(s, c);
      HoldsSnoc(c, x.month);
      assert inInit + inLast == if Holds(c, x.month) then multiset{x} else multiset{};
    }
  }

  /** A month held by a non-empty disjoint catalog is held either by its last season or,
      exclusively, by the seasons before it. */
  lemma HoldsSnoc(c: Catalog, m: Month)
    requires c != [] && Disjoint(c)
    ensures Holds(c, m) <==> Holds(c[..|c| - 1], m) || m in c[|c| - 1].months
    ensures !(Holds(c[..|c| - 1], m) && m in c[|c| - 1].months)
  {
    var init := c[..|c| - 1];
    if Holds(init, m) {
      var k :| 0 <= k < |init| && m in init[k].months;
      assert m in c[k].months;
    }
    if Holds(c, m) && m !in c[|c| - 1].months {
      var k :| 0 <= k < |c| && m in c[k].months;
      assert m in init[k].months;
    }
  }

  /** Under a partition, the season sub-series together hold every time step of the input
      exactly as often as the input does. */
  lemma {:induction false} SeparateIsPermutation(s: Series, c: Catalog)
    requires Covers(c) && Disjoint(c)
    ensures multiset(Concat(Separate(s, c))) == multiset(s)
  {
    if s == [] {
      ConcatOfEmpties(Separate(s, c));
    } else {
      var init, last := s[..|s| - 1], s[|s| - 1];
      SeparateIsPermutation(init, c);
      SeparateSnoc(init, last, c);
      assert init + [last] == s;
    }
  }

  lemma {:induction false} ConcatOfEmpties(blocks: seq<Series>)
    requires forall k :: 0 <= k < |blocks| ==> blocks[k] == []
    ensures Concat(blocks) == []
  {
    if blocks != [] {
      ConcatOfEmpties(blocks[..|blocks| - 1]);
    }
  }

  /** Under a partition, the season lengths add up to the length of the input. */
  lemma SeasonLengthsSum(s: Series, c: Catalog)
    requires IsPartition(c)
    ensures |Concat(Separate(s, c))| == |s|
  {
    SeparateIsPermutation(s, c);
    assert |multiset(Concat(Separate(s, c)))| == |multiset(s)|;
  }

  /** Under a partition, every time step of the input lies in exactly one season's sub-series. */
  lemma ExactlyOneSeason(s: Series, c: Catalog, x: Slice)
    requires IsPartition(c) && x in s
    ensures exists k :: 0 <= k < |c| && x in Separate(s, c)[k]
    ensures forall k, l :: 0 <= k < |c| && 0 <= l < |c| && x in Separate(s, c)[k] && x in Separate(s, c)[l] ==> k == l
  {
    assert Holds(c, x.month);
    var k :| 0 <= k < |c| && x.month in c[k].months;
    assert x in Separate(s, c)[k];
  }
}
