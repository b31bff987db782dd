/** The sales table (components/DataTable.tsx): its sort configuration,
    its page counter, and the rows it shows. */
module Table {
  import opened Seqs
  import opened Sales
  import opened Sorting

  const RowsPerPage: nat := 5

  /** `Math.ceil(n / RowsPerPage)`: the fewest pages that hold `n` rows. */
  function TotalPages(n: nat): (r: nat)
    ensures n == 0 <==> r == 0
    ensures n > 0 ==> (r - 1) * RowsPerPage < n <= r * RowsPerPage
  {
    (n + RowsPerPage - 1) / RowsPerPage
  }

  /** The page count printed under the table, `totalPages || 1`. */
  function ShownPageCount(n: nat): (r: nat)
    ensures r >= 1
    ensures n > 0 ==> r == TotalPages(n)
    ensures n == 0 ==> r == 1
  {
    var t := TotalPages(n);
    if t == 0 then 1 else t
  }

  /** `sorted.slice((page - 1) * RowsPerPage, page * RowsPerPage)`. For a
      page counted from one this is the page's window of rows, cut short at
      the end of the list; no page has more than `RowsPerPage` rows. */
  function Page<T>(sorted: seq<T>, page: int): (r: seq<T>)
    ensures |r| <= RowsPerPage
    ensures page >= 1 ==>
      var n := |sorted|;
      r == sorted[Min((page - 1) * RowsPerPage, n)..Min(page * RowsPerPage, n)]
    ensures page >= 1 ==> (r == [] <==> page > TotalPages(|sorted|))
  {
    Slice(sorted, (page - 1) * RowsPerPage, page * RowsPerPage)
  }

  /** Pages one to `k`, one after the other. */
  function PagesUpTo<T>(sorted: seq<T>, k: nat): seq<T>
  {
    if k == 0 then [] else PagesUpTo(sorted, k - 1) + Page(sorted, k)
  }

  lemma {:induction false} PagesUpToPrefix<T>(sorted: seq<T>, k: nat)
    ensures PagesUpTo(sorted, k) == sorted[..Min(k * RowsPerPage, |sorted|)]
  {
    if k > 0 {
      PagesUpToPrefix(sorted, k - 1);
      var n := |sorted|;
      var a := Min((k - 1) * RowsPerPage, n);
      var b := Min(k * RowsPerPage, n);
      assert sorted[..b] == sorted[..a] + sorted[a..b];
    }
  }

  /** The pages, read in order, hold every sorted row once. */
  lemma PagesCoverRows<T>(sorted: seq<T>)
    ensures PagesUpTo(sorted, TotalPages(|sorted|)) == sorted
  {
    PagesUpToPrefix(sorted, TotalPages(|sorted|));
  }

  /** The state the table keeps: `currentPage` and `sortConfig`. */
  datatype TableState = TableState(currentPage: int, sortConfig: SortConfig)

  /** First render: page one, newest first. */
  const InitialTable := TableState(1, SortConfig(ByDate, Descending))

  /** A click on a column header. */
  function RequestSort(t: TableState, key: SortKey): (r: TableState)
    ensures r.currentPage == 1
    ensures r.sortConfig.key == key
    ensures r.sortConfig.direction == Descending <==> t.sortConfig == SortConfig(key, Ascending)
  {
    var direction :=
      if t.sortConfig.key == key && t.sortConfig.direction == Ascending then Descending else Ascending;
    TableState(1, SortConfig(key, direction))
  }

  /** The "next" button is disabled on the last page and when there is none. */
  predicate NextDisabled(t: TableState, rowCount: nat)
  {
    t.currentPage == TotalPages(rowCount) || TotalPages(rowCount) == 0
  }

  /** The "previous" button is disabled on page one. */
  predicate PreviousDisabled(t: TableState)
  {
    t.currentPage == 1
  }

  /** `setCurrentPage(page => Math.min(page + 1, totalPages))`. */
  function GoToNextPage(t: TableState, rowCount: nat): (r: TableState)
    ensures r.sortConfig == t.sortConfig
    ensures r.currentPage <= TotalPages(rowCount)
    ensures r.currentPage <= t.currentPage + 1
    ensures !NextDisabled(t, rowCount) && t.currentPage >= 1 ==> r.currentPage >= 1
    ensures t.currentPage < TotalPages(rowCount) ==> r.currentPage == t.currentPage + 1
    ensures t.currentPage >= TotalPages(rowCount) ==> r.currentPage == TotalPages(rowCount)
  {
    t.(currentPage := Min(t.currentPage + 1, TotalPages(rowCount)))
  }

  /** `setCurrentPage(page => Math.max(page - 1, 1))`. */
  function GoToPreviousPage(t: TableState): (r: TableState)
    ensures r.sortConfig == t.sortConfig
    ensures r.currentPage >= 1
    ensures t.currentPage >= 1 ==> r.currentPage <= t.currentPage
    ensures t.currentPage > 1 ==> r.currentPage == t.currentPage - 1
  {
    t.(currentPage := Max(t.currentPage - 1, 1))
  }

  /** The page counter names a page that the counter line can show. */
  predicate PageInRange(t: TableState, rowCount: nat)
  {
    1 <= t.currentPage <= ShownPageCount(rowCount)
  }

  /** Starting in range, every control keeps the page in range while the rows
      stay the same. (A change of rows does not reset the page.) */
  lemma NavigationKeepsPageInRange(t: TableState, rowCount: nat, key: SortKey)
    requires PageInRange(t, rowCount)
    ensures PageInRange(InitialTable, rowCount)
    ensures PageInRange(RequestSort(t, key), rowCount)
    ensures PageInRange(GoToPreviousPage(t), rowCount)
    ensures !NextDisabled(t, rowCount) ==> PageInRange(GoToNextPage(t, rowCount), rowCount)
  {
  }

  /** What the table renders. */
  datatype TableView = TableView(
    rows: seq<Sale>,
    currentPage: int,
    pageCount: nat,
    previousDisabled: bool,
    nextDisabled: bool)

  lemma PageRowsFromData(sorted: seq<Sale>, data: seq<Sale>, page: int)
    requires multiset(sorted) == multiset(data)
    ensures forall x :: x in Page(sorted, page) ==> x in data
  {
    forall x | x in Page(sorted, page)
      ensures x in data
    {
      assert x in sorted;
      assert x in multiset(sorted);
    }
  }

  function Render(t: TableState, data: seq<Sale>): (v: TableView)
    ensures |v.rows| <= RowsPerPage
    ensures forall x :: x in v.rows ==> x in data
    ensures v.pageCount >= 1 && v.pageCount == ShownPageCount(|data|)
    ensures v.currentPage == t.currentPage
    ensures v.previousDisabled <==> t.currentPage == 1
    ensures v.nextDisabled <==> t.currentPage == TotalPages(|data|) || data == []
    ensures t.currentPage >= 1 ==>
      var sorted := Sort(t.sortConfig, data);
      v.rows == sorted[Min((t.currentPage - 1) * RowsPerPage, |data|)..Min(t.currentPage * RowsPerPage, |data|)]
  {
    var sorted := Sort(t.sortConfig, data);
    var rows := Page(sorted, t.currentPage);
    PageRowsFromData(sorted, data, t.currentPage);
    TableView(rows, t.currentPage, ShownPageCount(|data|), PreviousDisabled(t), NextDisabled(t, |data|))
  }

  /** Clicking the same header twice from ascending comes back to ascending,
      on page one, with the same rows. */
  lemma RequestSortTwice(t: TableState, key: SortKey, data: seq<Sale>)
    requires t.sortConfig == SortConfig(key, Ascending)
    ensures RequestSort(t, key).sortConfig == SortConfig(key, Descending)
    ensures RequestSort(RequestSort(t, key), key) == t.(currentPage := 1)
    ensures Render(RequestSort(RequestSort(t, key), key), data).rows == Render(t.(currentPage := 1), data).rows
  {
  }
}
