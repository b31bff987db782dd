/** The catalogues and the generator of sample records (hooks/useMockData.ts).
    The random draws and today's day number are parameters. */
module MockData {
  import opened Seqs
  import opened Text
  import opened Sales
  import opened Sorting
  import opened Money

  datatype CatalogItem = CatalogItem(product: string, category: string)

  const ProductCatalog: seq<CatalogItem> := [
    CatalogItem("لابتوب Pro", "إلكترونيات"),
    CatalogItem("لابتوب Gamer", "إلكترونيات"),
    CatalogItem("شاشة UltraWide", "إلكترونيات"),
    CatalogItem("هاتف SmartX", "هواتف"),
    CatalogItem("هاتف SmartX Plus", "هواتف"),
    CatalogItem("سماعات SoundWave", "صوتيات"),
    CatalogItem("سماعات Buds", "صوتيات"),
    CatalogItem("ساعة Chrono", "اكسسوارات"),
    CatalogItem("كاميرا Vision", "كاميرات")
  ]

  function CategoryOfItem(c: CatalogItem): string { c.category }

  /** `[...new Set(PRODUCT_CATALOG.map(p => p.category))]`. */
  const Categories: seq<string> := Dedupe(Map(ProductCatalog, CategoryOfItem))

  const Regions: seq<string> := ["الرياض", "جدة", "الدمام", "مكة", "المدينة"]

  const Customers: seq<Customer> := [
    Customer("c1", "أحمد المحمد"),
    Customer("c2", "فاطمة العلي"),
    Customer("c3", "خالد الصالح"),
    Customer("c4", "نورة التركي"),
    Customer("c5", "سارة عبدالله")
  ]

  /** The categories: each catalogue category once, in the order in which
      the catalogue first names it. */
  lemma CategoriesOfCatalog()
    ensures Distinct(Categories)
    ensures forall c :: c in Categories <==> exists i :: 0 <= i < |ProductCatalog| && ProductCatalog[i].category == c
    ensures forall i, j :: 0 <= i < j < |Categories| ==>
      FirstIndex(Map(ProductCatalog, CategoryOfItem), Categories[i])
        < FirstIndex(Map(ProductCatalog, CategoryOfItem), Categories[j])
  {
    DedupeFirstOccurrenceOrder(Map(ProductCatalog, CategoryOfItem));
    forall c | c in Categories
      ensures exists i :: 0 <= i < |ProductCatalog| && ProductCatalog[i].category == c
    {
      var i :| 0 <= i < |ProductCatalog| && Map(ProductCatalog, CategoryOfItem)[i] == c;
    }
    forall c | exists i :: 0 <= i < |ProductCatalog| && ProductCatalog[i].category == c
      ensures c in Categories
    {
      var i :| 0 <= i < |ProductCatalog| && ProductCatalog[i].category == c;
      assert Map(ProductCatalog, CategoryOfItem)[i] == c;
    }
  }

  /** `Math.random()` returns `u / 2^53` for a whole `u` below `2^53`. */
  const RandomScale: nat := 0x20_0000_0000_0000

  type RandomDraw = u: nat | u < RandomScale

  /** `Math.floor(Math.random() * k)`: an index below `k`. */
  function Pick(u: RandomDraw, k: nat): (r: nat)
    ensures k > 0 ==> r < k
    ensures r * RandomScale <= u * k < (r + 1) * RandomScale
  {
    PickBelow(u, k);
    u * k / RandomScale
  }

  lemma PickBelow(u: RandomDraw, k: nat)
    ensures k > 0 ==> u * k / RandomScale < k
  {
    if k > 0 {
      assert u * k < RandomScale * k;
    }
  }

  /** The six draws one record takes, in the order the loop makes them. */
  datatype Draw = Draw(day: RandomDraw, product: RandomDraw, units: RandomDraw, price: RandomDraw, region: RandomDraw, customer: RandomDraw)

  /** The unit price `100 + r * 1900` dollars, `r` being the price draw, as
      cents times `RandomScale`, so that it is exact. */
  function ScaledPrice(price: RandomDraw): (n: nat)
    ensures 10000 * RandomScale <= n <= 200000 * RandomScale - 190000
  {
    10000 * RandomScale + 190000 * price
  }

  /** Revenue in cents: `(unitsSold * price).toFixed(2)`, the exact product
      rounded to the nearest cent, a tie going up. */
  function MockRevenue(units: nat, price: RandomDraw): (r: int)
    ensures var n := ScaledPrice(price);
      2 * units * n - RandomScale < 2 * RandomScale * r <= 2 * units * n + RandomScale
    ensures 10000 * units <= r <= 200000 * units
  {
    var n := ScaledPrice(price);
    RevenueBounds(units, n);
    RoundedQuotient(units * n, RandomScale)
  }

  lemma RevenueBounds(units: nat, n: int)
    requires 10000 * RandomScale <= n <= 200000 * RandomScale - 190000
    ensures 10000 * units <= RoundedQuotient(units * n, RandomScale) <= 200000 * units
  {
    ScaledRevenueBounds(units, n, RandomScale);
  }

  /** The same bounds for any positive scale `s` of the price. */
  lemma ScaledRevenueBounds(units: nat, n: int, s: nat)
    requires s > 0 && 10000 * s <= n <= 200000 * s
    ensures 10000 * units <= RoundedQuotient(units * n, s) <= 200000 * units
  {
    ProductBetween(units, n, s);
    RoundedWithin(units * n, s, 10000 * units, 200000 * units);
  }

  lemma ProductBetween(units: nat, n: int, s: nat)
    requires 10000 * s <= n <= 200000 * s
    ensures 2 * s * (10000 * units) <= 2 * (units * n) <= 2 * s * (200000 * units)
  {
    assert units * (n - 10000 * s) >= 0 && units * (200000 * s - n) >= 0;
  }

  /** The id of the record made in round `i` (counting from zero). */
  function SaleId(i: nat): string
  {
    "sale_" + NatToString(i + 1)
  }

  lemma SaleIdInjective(i: nat, j: nat)
    requires SaleId(i) == SaleId(j)
    ensures i == j
  {
    var a, b := NatToString(i + 1), NatToString(j + 1);
    assert a == SaleId(i)[5..] == SaleId(j)[5..] == b;
    NatToStringInjective(i + 1, j + 1);
  }

  /** `id` is one of `sale_1` ... `sale_<count>`. */
  predicate NumberedUpTo(id: string, count: nat)
  {
    exists i :: 1 <= i <= count && id == "sale_" + NatToString(i)
  }

  /** The record made in round `i`: a day up to 364 days back, a catalogue
      item, one to ten units, a region and a customer. */
  function MockRecord(i: nat, today: int, d: Draw): Sale
  {
    var item := ProductCatalog[Pick(d.product, |ProductCatalog|)];
    var units := Pick(d.units, 10) + 1;
    Sale(
      SaleId(i),
      today - Pick(d.day, 365),
      item.product,
      item.category,
      Regions[Pick(d.region, |Regions|)],
      MockRevenue(units, d.price),
      units,
      Customers[Pick(d.customer, |Customers|)])
  }

  /** The bounds every generated record keeps. */
  predicate WellFormedMock(x: Sale, today: int)
  {
    && today - 364 <= x.date <= today
    && CatalogItem(x.product, x.category) in ProductCatalog
    && x.region in Regions
    && x.customer in Customers
    && 1 <= x.unitsSold <= 10
    && 10000 * x.unitsSold <= x.revenue <= 200000 * x.unitsSold
  }

  lemma MockRecordWellFormed(i: nat, today: int, d: Draw)
    ensures WellFormedMock(MockRecord(i, today, d), today)
    ensures MockRecord(i, today, d).id == SaleId(i)
  {
    var item := ProductCatalog[Pick(d.product, |ProductCatalog|)];
    assert CatalogItem(item.product, item.category) == item;
  }

  /** The records in the order the loop pushes them. */
  function Generated(count: nat, today: int, draws: nat -> Draw): (r: seq<Sale>)
    ensures |r| == count
    ensures forall i :: 0 <= i < count ==> r[i] == MockRecord(i, today, draws(i))
    ensures forall i :: 0 <= i < count ==> r[i].id == SaleId(i) && WellFormedMock(r[i], today)
    ensures Distinct(r)
  {
    var r := seq(count, i requires 0 <= i < count => MockRecord(i, today, draws(i)));
    forall i | 0 <= i < count
      ensures r[i].id == SaleId(i) && WellFormedMock(r[i], today)
    {
      MockRecordWellFormed(i, today, draws(i));
    }
    forall i, j | 0 <= i < j < count
      ensures r[i] != r[j]
    {
      if r[i] == r[j] {
        SaleIdInjective(i, j);
      }
    }
    r
  }

  /** `generateMockData(count)`: `count` records, made one per round, then
      sorted by date, oldest first. */
  method GenerateMockData(count: nat, today: int, draws: nat -> Draw) returns (r: seq<Sale>)
    ensures |r| == count
    ensures multiset(r) == multiset(Generated(count, today, draws))
    ensures Chronological(r)
    ensures Distinct(Map(r, IdOf))
    ensures forall x :: x in r ==> WellFormedMock(x, today)
    ensures forall x :: x in r ==> NumberedUpTo(x.id, count)
  {
    var data: seq<Sale> := [];
    var i := 0;
    while i < count
      invariant 0 <= i <= count
      invariant |data| == i
      invariant forall j :: 0 <= j < i ==> data[j] == MockRecord(j, today, draws(j))
    {
      data := data + [MockRecord(i, today, draws(i))];
      i := i + 1;
    }
    var g := Generated(count, today, draws);
    assert data == g;
    r := Sort(DateOrder, data);
    DateOrderChronological(r);
    SortedRecordsFromRounds(g, r, count, today);
    IdsDistinct(g, r);
  }

  /** What holds of every round's record holds of every sorted record. */
  lemma SortedRecordsFromRounds(g: seq<Sale>, r: seq<Sale>, count: nat, today: int)
    requires |g| == count && multiset(r) == multiset(g)
    requires forall i :: 0 <= i < count ==> g[i].id == SaleId(i) && WellFormedMock(g[i], today)
    ensures forall x :: x in r ==> WellFormedMock(x, today)
    ensures forall x :: x in r ==> NumberedUpTo(x.id, count)
  {
    forall x | x in r
      ensures WellFormedMock(x, today) && NumberedUpTo(x.id, count)
    {
      assert x in multiset(g);
      var k :| 0 <= k < count && g[k] == x;
      var i := k + 1;
      assert 1 <= i <= count && x.id == "sale_" + NatToString(i);
    }
  }

  /** Records of distinct rounds carry distinct ids, and sorting keeps that. */
  lemma IdsDistinct(g: seq<Sale>, r: seq<Sale>)
    requires forall i :: 0 <= i < |g| ==> g[i].id == SaleId(i)
    requires multiset(r) == multiset(g)
    ensures Distinct(Map(r, IdOf))
  {
    assert Distinct(Map(g, IdOf)) by {
      forall i, j | 0 <= i < j < |g|
        ensures Map(g, IdOf)[i] != Map(g, IdOf)[j]
      {
        if g[i].id == g[j].id {
          SaleIdInjective(i, j);
        }
      }
    }
    MapPermutation(g, r, IdOf);
    DistinctPermutation(Map(g, IdOf), Map(r, IdOf));
  }
}
