/** The records of the dashboard (types.ts).

    A date is a day number: the `YYYY-MM-DD` strings of the application order
    the same way as the days they name. Money (revenue, unit price) is a
    whole number of cents. */
module Sales {

  datatype Customer = Customer(id: string, name: string)

  datatype Sale = Sale(
    id: string,
    date: int,
    product: string,
    category: string,
    region: string,
    revenue: int,
    unitsSold: int,
    customer: Customer)

  /** A sale before it is given its id (`Omit<Sale, 'id'>`). */
  datatype SaleData = SaleData(
    date: int,
    product: string,
    category: string,
    region: string,
    revenue: int,
    unitsSold: int,
    customer: Customer)
  {
    function WithId(id: string): Sale
    {
      Sale(id, date, product, category, region, revenue, unitsSold, customer)
    }
  }

  datatype Sender = User | Ai

  datatype ChatMessage = ChatMessage(sender: Sender, text: string)

  /** Field projections, used as the key and value functions of sums and
      groupings. */
  function RevenueOf(s: Sale): int { s.revenue }

  function UnitsOf(s: Sale): int { s.unitsSold }

  function RegionOf(s: Sale): string { s.region }

  function CategoryOf(s: Sale): string { s.category }

  function CustomerIdOf(s: Sale): string { s.customer.id }

  function IdOf(s: Sale): string { s.id }

  /** Every two records are in date order, oldest first. */
  predicate Chronological(s: seq<Sale>)
  {
    forall i :: 0 <= i < |s| - 1 ==> s[i].date <= s[i + 1].date
  }
}
