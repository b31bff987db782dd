/** The four key figures above the charts (the `kpis` memo of App.tsx),
    computed over the filtered records. Amounts are in cents. */
module Kpis {
  import opened Seqs
  import opened Sales
  import opened Money

  datatype Kpis = Kpis(
    totalRevenue: int,
    totalSales: int,
    totalCustomers: nat,
    avgSaleValue: int)

  /** The number of distinct customer ids, `new Set(ids).size`. */
  function DistinctCustomers(data: seq<Sale>): (r: nat)
    ensures r == |Elements(Map(data, CustomerIdOf))|
    ensures r <= |data|
    ensures r == 0 <==> data == []
  {
    DedupeSize(Map(data, CustomerIdOf));
    assert data != [] ==> data[0].customer.id in Dedupe(Map(data, CustomerIdOf));
    |Dedupe(Map(data, CustomerIdOf))|
  }

  /** The figures: summed revenue, summed units, distinct customers, and the
      revenue per record, which is zero (not a division) when there are no
      records. */
  function ComputeKpis(data: seq<Sale>): (k: Kpis)
    ensures data == [] ==> k == Kpis(0, 0, 0, 0)
    ensures k.totalRevenue == SumOf(data, RevenueOf) && k.totalSales == SumOf(data, UnitsOf)
    ensures k.totalCustomers == |Elements(Map(data, CustomerIdOf))|
    ensures k.totalCustomers <= |data|
    ensures data != [] ==>
      var t := k.totalRevenue; var n := |data|;
      2 * t - n <= 2 * n * k.avgSaleValue <= 2 * t + n
  {
    var revenue := SumOf(data, RevenueOf);
    var avg := if |data| > 0 then RoundedQuotient(revenue, |data|) else 0;
    Kpis(revenue, SumOf(data, UnitsOf), DistinctCustomers(data), avg)
  }

  /** One record: its own revenue and units, one customer, and an average
      equal to its revenue. */
  lemma KpisSingle(x: Sale)
    ensures ComputeKpis([x]) == Kpis(x.revenue, x.unitsSold, 1, x.revenue)
  {
    assert DropLast([x]) == [];
    var ids := Map([x], CustomerIdOf);
    assert ids == [x.customer.id];
    assert Elements(ids) == {x.customer.id};
    assert DistinctCustomers([x]) == 1;
    assert SumOf([x], RevenueOf) == x.revenue;
    assert SumOf([x], UnitsOf) == x.unitsSold;
    var r := RoundedQuotient(x.revenue, 1);
    assert 2 * x.revenue - 1 <= 2 * r <= 2 * x.revenue + 1;
  }

  /** The totals add up over a concatenation; with `KpisSingle` and the empty
      case this makes them the sums of the fields. */
  lemma KpisAppend(a: seq<Sale>, b: seq<Sale>)
    ensures ComputeKpis(a + b).totalRevenue == ComputeKpis(a).totalRevenue + ComputeKpis(b).totalRevenue
    ensures ComputeKpis(a + b).totalSales == ComputeKpis(a).totalSales + ComputeKpis(b).totalSales
  {
    SumConcat(a, b, RevenueOf);
    SumConcat(a, b, UnitsOf);
  }

  /** The figures do not depend on the order of the records. */
  lemma KpisPermutation(a: seq<Sale>, b: seq<Sale>)
    requires multiset(a) == multiset(b)
    ensures ComputeKpis(a) == ComputeKpis(b)
  {
    SumPermutation(a, b, RevenueOf);
    SumPermutation(a, b, UnitsOf);
    assert |a| == |multiset(a)| == |b|;
    assert Elements(Map(a, CustomerIdOf)) == Elements(Map(b, CustomerIdOf)) by {
      forall id | id in Map(a, CustomerIdOf)
        ensures id in Map(b, CustomerIdOf)
      {
        var i :| 0 <= i < |a| && Map(a, CustomerIdOf)[i] == id;
        assert a[i] in multiset(b);
        var j :| 0 <= j < |b| && b[j] == a[i];
        assert Map(b, CustomerIdOf)[j] == id;
      }
      forall id | id in Map(b, CustomerIdOf)
        ensures id in Map(a, CustomerIdOf)
      {
        var j :| 0 <= j < |b| && Map(b, CustomerIdOf)[j] == id;
        assert b[j] in multiset(a);
        var i :| 0 <= i < |a| && a[i] == b[j];
        assert Map(a, CustomerIdOf)[i] == id;
      }
    }
  }
}
