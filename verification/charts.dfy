/** The data behind the three charts: revenue per region
    (components/RegionPieChart.tsx), units per category
    (components/SalesChart.tsx) and revenue per day label, the last thirty
    labels only (components/RevenueChart.tsx). */
module Charts {
  import opened Seqs
  import opened Sales
  import opened Grouping

  /** The sales made in region `region`. */
  function InRegion(region: string): Sale -> bool
  {
    KeyIs(RegionOf, region)
  }

  /** The sales of category `category`. */
  function InCategory(category: string): Sale -> bool
  {
    KeyIs(CategoryOf, category)
  }

  /** The properties every grouped sum has, stated with an independent
      reference: each entry holds the sum over the elements filtered by its
      key, the names are the distinct keys in order of first occurrence, and
      the total is kept. */
  lemma GroupSumProperties<T(!new), K(!new)>(s: seq<T>, key: T -> K, val: T -> int)
    ensures var r := GroupSum(s, key, val);
      && Distinct(Names(r))
      && (forall n :: n in Names(r) <==> n in Map(s, key))
      && (forall i :: 0 <= i < |r| ==> r[i].value == SumOf(Filter(s, KeyIs(key, r[i].name)), val))
      && (forall i, j :: 0 <= i < j < |r| ==>
            FirstIndex(Map(s, key), r[i].name) < FirstIndex(Map(s, key), r[j].name))
      && SumOf(r, ValueOfEntry) == SumOf(s, val)
      && (r == [] <==> s == [])
  {
    var r := GroupSum(s, key, val);
    GroupSumEntries(s, key, val);
    DedupeFirstOccurrenceOrder(Map(s, key));
    forall i | 0 <= i < |r|
      ensures r[i].value == SumOf(Filter(s, KeyIs(key, r[i].name)), val)
    {
      SumWhereFilter(s, key, val, r[i].name);
    }
    if s != [] {
      assert key(s[0]) in Names(r);
    }
  }

  /** `chartData` of the pie chart: one `{ name, value }` per region. */
  function RevenueByRegion(data: seq<Sale>): (r: seq<Entry<string>>)
    ensures Distinct(Names(r))
    ensures forall n :: n in Names(r) <==> n in Map(data, RegionOf)
    ensures forall i :: 0 <= i < |r| ==> r[i].value == SumOf(Filter(data, InRegion(r[i].name)), RevenueOf)
    ensures forall i, j :: 0 <= i < j < |r| ==>
      FirstIndex(Map(data, RegionOf), r[i].name) < FirstIndex(Map(data, RegionOf), r[j].name)
    ensures SumOf(r, ValueOfEntry) == SumOf(data, RevenueOf)
    ensures r == [] <==> data == []
  {
    GroupSumProperties(data, RegionOf, RevenueOf);
    GroupSum(data, RegionOf, RevenueOf)
  }

  /** `chartData` of the bar chart: one entry per category with its units. */
  function UnitsByCategory(data: seq<Sale>): (r: seq<Entry<string>>)
    ensures Distinct(Names(r))
    ensures forall n :: n in Names(r) <==> n in Map(data, CategoryOf)
    ensures forall i :: 0 <= i < |r| ==> r[i].value == SumOf(Filter(data, InCategory(r[i].name)), UnitsOf)
    ensures forall i, j :: 0 <= i < j < |r| ==>
      FirstIndex(Map(data, CategoryOf), r[i].name) < FirstIndex(Map(data, CategoryOf), r[j].name)
    ensures SumOf(r, ValueOfEntry) == SumOf(data, UnitsOf)
    ensures r == [] <==> data == []
  {
    GroupSumProperties(data, CategoryOf, UnitsOf);
    GroupSum(data, CategoryOf, UnitsOf)
  }

  /** The most points the revenue chart draws. */
  const MaxPoints: nat := 30

  /** The day label of a sale. The locale's short month-and-day text is not
      modelled: `dayLabel` stands for it. */
  function LabelOf(dayLabel: int -> string): Sale -> string
  {
    (x: Sale) => dayLabel(x.date)
  }

  /** All the buckets of the revenue chart before truncation. */
  function RevenueByLabel(data: seq<Sale>, dayLabel: int -> string): (r: seq<Entry<string>>)
    ensures Distinct(Names(r))
    ensures forall n :: n in Names(r) <==> n in Map(data, LabelOf(dayLabel))
    ensures forall i :: 0 <= i < |r| ==>
      r[i].value == SumOf(Filter(data, KeyIs(LabelOf(dayLabel), r[i].name)), RevenueOf)
    ensures forall i, j :: 0 <= i < j < |r| ==>
      FirstIndex(Map(data, LabelOf(dayLabel)), r[i].name) < FirstIndex(Map(data, LabelOf(dayLabel)), r[j].name)
    ensures SumOf(r, ValueOfEntry) == SumOf(data, RevenueOf)
    ensures r == [] <==> data == []
  {
    GroupSumProperties(data, LabelOf(dayLabel), RevenueOf);
    GroupSum(data, LabelOf(dayLabel), RevenueOf)
  }

  /** `chartData` of the line chart: the buckets, then `.slice(-30)`. */
  function RevenueSeries(data: seq<Sale>, dayLabel: int -> string): (r: seq<Entry<string>>)
    ensures |r| <= MaxPoints
    ensures var full := RevenueByLabel(data, dayLabel);
      r == full[|full| - Min(MaxPoints, |full|)..]
  {
    var full := RevenueByLabel(data, dayLabel);
    SliceLast(full, MaxPoints);
    Slice(full, 0 - MaxPoints, |full|)
  }

  /** Two sales whose dates carry the same label (the label has no year, so
      dates a year apart do) fall into one bucket, which counts both. */
  lemma SameLabelSameBucket(data: seq<Sale>, dayLabel: int -> string, x: Sale, y: Sale)
    requires x in data && y in data && dayLabel(x.date) == dayLabel(y.date)
    ensures var full := RevenueByLabel(data, dayLabel);
      exists i :: 0 <= i < |full| && full[i].name == dayLabel(x.date)
        && x in Filter(data, KeyIs(LabelOf(dayLabel), full[i].name))
        && y in Filter(data, KeyIs(LabelOf(dayLabel), full[i].name))
  {
    var full := RevenueByLabel(data, dayLabel);
    var n := dayLabel(x.date);
    var k :| 0 <= k < |data| && data[k] == x;
    assert Map(data, LabelOf(dayLabel))[k] == n;
    assert n in Names(full);
    var i :| 0 <= i < |full| && Names(full)[i] == n;
    var p := KeyIs(LabelOf(dayLabel), n);
    FilterKeeps(data, p, x);
    FilterKeeps(data, p, y);
    assert full[i].name == n;
  }

  /** With at most thirty labels nothing is cut and the series still adds up
      to the total revenue. */
  lemma RevenueSeriesTotal(data: seq<Sale>, dayLabel: int -> string)
    requires |Elements(Map(data, LabelOf(dayLabel)))| <= MaxPoints
    ensures RevenueSeries(data, dayLabel) == RevenueByLabel(data, dayLabel)
    ensures SumOf(RevenueSeries(data, dayLabel), ValueOfEntry) == SumOf(data, RevenueOf)
  {
    var full := RevenueByLabel(data, dayLabel);
    DedupeSize(Map(data, LabelOf(dayLabel)));
    assert |full| <= MaxPoints;
    assert full[0..] == full;
  }
}
