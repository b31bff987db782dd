# Sales dashboard: a Dafny model of its derived-data pipeline

The application is a single-page sales dashboard. It keeps a store of sale
records and shows four key figures, three charts, a sortable and paged table,
a form that adds a sale, a delete confirmation, and an assistant card that
formats answers from a language model. Apart from rendering, its behaviour
is a set of small, deterministic transformations of record sequences, kept
inside component closures. This project lifts them into pure Dafny functions
and proves what they promise.

Representation:

- A date is a whole day number. The `YYYY-MM-DD` strings of the application
  order the same way as the days they name.
- Revenue and unit price are whole numbers of cents.
- A string is a `seq<char>`.
- `Math.random()` is `u / 2^53` for a whole `u` below `2^53`.
- Today's date, the clock's instant and the generated ids are parameters.
- Every asynchronous step (the language-model calls, the simulated network
  delays) is one transition. Its outcome is a parameter.

Modules, one per source file or concern:

| module | file | models |
|---|---|---|
| `Seqs` | seqs.dfy | `filter`, `map`, `reduce` sums, `new Set(...)` order, `slice` |
| `Text` | text.dfy | `trim`, `split`, `join`, decimal rendering of a count, `<` on strings |
| `Sales` | sales.dfy | the record types of types.ts |
| `Sorting` | sorting.dfy | the table comparator and the stable sort |
| `Table` | table.dfy | components/DataTable.tsx: sort state, paging, the rendered page |
| `Grouping` | grouping.dfy | the `reduce` into an object, then `Object.entries`, used by the charts |
| `Charts` | charts.dfy | RegionPieChart.tsx, SalesChart.tsx, RevenueChart.tsx |
| `Money` | money.dfy | rounding a quotient of cents to the nearest cent |
| `Kpis` | kpis.dfy | the `kpis` memo of App.tsx |
| `Insight` | insight.dfy | components/AiInsightCard.tsx |
| `SaleForm` | saleform.dfy | components/AddSaleModal.tsx |
| `MockData` | mockdata.dfy | hooks/useMockData.ts |
| `Dashboard` | dashboard.dfy | the application state and handlers of App.tsx |

The table clamps the page number in its "next" and "previous" buttons
(DataTable.tsx:81 and 85). A change of the rows does not clamp it: the page
number stays as it was (DataTable.tsx:26; only `requestSort` resets it,
line 69). A stale page then
shows no rows: `Table.Page` states exactly when that happens.

A grouping keeps the object's keys in insertion order. `Object.entries`
lists string keys that way, and no region, category or date label is an
integer-like string.

## Model

| member | source | states |
|---|---|---|
| Seqs.Filter | App.tsx:61 | the kept elements are an ordered sublist of the input; each value keeps its multiplicity if it passes the test and is dropped otherwise |
| Seqs.FilterKeepsAll | App.tsx:129 | a filter that every element passes returns the input unchanged |
| Seqs.DistinctMultiplicity | App.tsx:141 | a sequence has no repeats exactly when no value occurs in it more than once |
| Seqs.FilterFilter | App.tsx:57-63 | a stronger test applied after a weaker one equals the stronger test alone |
| Seqs.FilterPartition | App.tsx:129 | the kept and the dropped elements together are the input, as multisets and in count |
| Seqs.SumConcat | App.tsx:139-140 | a `reduce` sum over a concatenation is the sum of the parts |
| Seqs.SumPermutation | App.tsx:139-140 | reordering the records does not change a sum |
| Seqs.MapPermutation | App.tsx:141 | mapping two permutations of each other gives permutations of each other |
| Seqs.DistinctPermutation | hooks/useMockData.ts:51 | a permutation of a sequence without repeats has none |
| Seqs.Dedupe | hooks/useMockData.ts:15 | `new Set` order: no repeats, and exactly the values of the input |
| Seqs.DedupeFirstOccurrenceOrder | hooks/useMockData.ts:15 | the de-duplicated values appear in the order of their first occurrences |
| Seqs.DedupeSize | App.tsx:141 | the number of distinct values is the size of the value set and at most the length |
| Seqs.SliceLast | components/RevenueChart.tsx:20 | `slice(-k)` for positive `k` is the last `min(k, n)` elements |
| Text.Trim | components/AiInsightCard.tsx:30 | the result has no white space at either end; it is empty exactly when the input is all white space |
| Text.TrimShape | components/AddSaleModal.tsx:57 | trimming keeps a contiguous middle of the text and removes only white space on both sides |
| Text.TrimIdempotent | components/AddSaleModal.tsx:62 | trimming twice is trimming once |
| Text.ParseNatToString | hooks/useMockData.ts:41 | reading back the decimal rendering of a count gives the count |
| Text.NatToStringInjective | App.tsx:63 | different counts render differently |
| Text.JoinSplit | components/AiInsightCard.tsx:29 | joining the pieces of `split` restores the text |
| Text.SplitJoin | components/AiInsightCard.tsx:29 | splitting joined pieces that hold no separator gives the pieces back |
| Text.StrLessTransitive | components/DataTable.tsx:44-47 | `<` on strings is transitive |
| Text.StrLessTotal | components/DataTable.tsx:44-50 | of two different strings, one is less than the other |
| Sorting.CompareFlip | components/DataTable.tsx:44-50 | swapping the arguments negates the comparator |
| Sorting.CompareZero | components/DataTable.tsx:50 | the comparator returns 0 exactly when the two key values are equal |
| Sorting.CompareStrictTransitive | components/DataTable.tsx:44-50 | strictly before, then not after, gives strictly before |
| Sorting.Insert | components/DataTable.tsx:32 | inserting into a sorted sequence keeps it sorted and adds exactly the one element |
| Sorting.Sort | components/DataTable.tsx:29-53 | the result is sorted by the comparator and a permutation of the input; adjacent rows are non-decreasing by the key when ascending and non-increasing when descending |
| Sorting.SortStable | components/DataTable.tsx:50 | records with equal key values appear in the output in their input order |
| Sorting.DateOrderChronological | App.tsx:114 | sorted by date ascending means oldest first |
| Table.TotalPages | components/DataTable.tsx:56 | the fewest pages of five that hold `n` rows; zero exactly when there are no rows |
| Table.ShownPageCount | components/DataTable.tsx:141 | the printed page count is the number of pages, or 1 when there are none |
| Table.Page | components/DataTable.tsx:58-61 | page `p` holds rows `(p-1)*5` to `min(p*5, n)` of the sorted rows, at most five; it is empty exactly when `p` is past the last page |
| Table.PagesCoverRows | components/DataTable.tsx:58-61 | pages 1 to the last, read in order, are the sorted rows |
| Table.RequestSort | components/DataTable.tsx:63-70 | the page becomes 1 and the key the requested one; the direction is descending exactly when the same key was ascending |
| Table.GoToNextPage | components/DataTable.tsx:80-82 | the page becomes the next one when there is one and the last page otherwise, so it never passes the last page; from a valid page with next enabled it stays at least 1 |
| Table.GoToPreviousPage | components/DataTable.tsx:84-86 | the page never goes below 1 and goes down by one from any later page |
| Table.NavigationKeepsPageInRange | components/DataTable.tsx:63-86 | from a page the counter can show, the first render, a header click, "previous" and an enabled "next" all lead to such a page |
| Table.RequestSortTwice | components/DataTable.tsx:63-70 | two clicks on the header sorted ascending come back to ascending on page one, with the same rows |
| Table.Render | components/DataTable.tsx:25-150 | at most five rows, all from the data, the page's window of the sorted rows; the printed page count; "previous" disabled exactly on page 1 and "next" exactly on the last page or with no rows |
| Grouping.GroupSum | components/RegionPieChart.tsx:14-19 | the entry names are the distinct keys in first-occurrence order; every key's value is the sum over its elements; the values add up to the total |
| Grouping.SumWhereFilter | components/RegionPieChart.tsx:15 | a key's accumulated value is the sum over the elements filtered by that key |
| Charts.GroupSumProperties | components/SalesChart.tsx:12-17 | a grouping has distinct names, exactly the keys present, sums by filter, first-occurrence order, the total kept, and is empty exactly for empty input |
| Charts.RevenueByRegion | components/RegionPieChart.tsx:13-20 | distinct regions, exactly those present, each with its revenue sum, in first-occurrence order; values add up to total revenue; empty exactly for no records |
| Charts.UnitsByCategory | components/SalesChart.tsx:11-18 | distinct categories, exactly those present, each with its unit sum, in first-occurrence order; values add up to total units; empty exactly for no records |
| Charts.RevenueByLabel | components/RevenueChart.tsx:12-16 | distinct labels, exactly those of the records' dates, each with the revenue of the records carrying it, in the order of their first occurrence; values add up to total revenue; empty exactly for no records |
| Charts.RevenueSeries | components/RevenueChart.tsx:18-20 | at most 30 points, the last `min(30, k)` buckets of the full grouping |
| Charts.SameLabelSameBucket | components/RevenueChart.tsx:13-14 | two records whose dates carry the same label are summed in one bucket |
| Charts.RevenueSeriesTotal | components/RevenueChart.tsx:14-20 | with at most 30 labels nothing is cut and the series adds up to the total revenue |
| Money.RoundedQuotient | App.tsx:147 | the average in cents is the quotient rounded to the nearest cent, a tie away from zero, stated as bounds on twice the quotient |
| Kpis.DistinctCustomers | App.tsx:141 | the number of distinct customer ids, at most the record count, zero exactly for no records |
| Kpis.ComputeKpis | App.tsx:138-149 | total revenue and total units are the sums over the records, the customer count is the number of distinct customer ids; all zero for no records; otherwise the average is within half a cent of total revenue over count, with no division by zero |
| Kpis.KpisSingle | App.tsx:139-147 | one record gives its own revenue and units, one customer, and its revenue as average |
| Kpis.KpisAppend | App.tsx:139-140 | total revenue and total units add up over a concatenation |
| Kpis.KpisPermutation | App.tsx:138-149 | the four figures do not depend on the order of the records |
| Insight.ClassifyLine | components/AiInsightCard.tsx:30-37 | a blank line gives nothing; a trimmed line led by `-` or `*` gives a list item of the rest trimmed again; any other line a paragraph of the trimmed text |
| Insight.BlocksOfNonBlankLines | components/AiInsightCard.tsx:29-38 | one element per non-blank line, in line order, each the classification of its line |
| Insight.Format | components/AiInsightCard.tsx:41-50 | the message is a bullet list exactly when some element is a list item |
| Insight.FormatSingleLine | components/AiInsightCard.tsx:28-51 | a one-line text not led by a bullet is one paragraph of its trimmed text |
| Insight.ShowPanel | components/AiInsightCard.tsx:69-103 | loading shows the spinner; otherwise an error shows the error; otherwise the conversation: the formatted first insight exactly while the history is empty, then one bubble per message in order, a user's text as written and an answer formatted, and a typing line while answering |
| Insight.SendDisabled | components/AiInsightCard.tsx:115 | send is disabled exactly while the insight loads, an answer is pending, or the query is all white space |
| Insight.RefreshDisabled | components/AiInsightCard.tsx:75 | refresh is disabled exactly while anything is pending, and then send is disabled for every query |
| Insight.SendEnabledIff | components/AiInsightCard.tsx:75-115 | send is enabled exactly when nothing is pending and the query has a character other than white space; whenever send is enabled, so is refresh |
| Insight.HandleFormSubmit | components/AiInsightCard.tsx:63-67 | the query is forwarded and the box is emptied |
| Dashboard.FilterName | App.tsx:56-63 | the active filter is named `all` for no window, or the day count followed by `days` |
| Dashboard.FilterButtonsMatch | components/FilterButtons.tsx:9-14 | the four buttons' values are exactly the names of the four windows, in order, and each button matches one window only |
| Dashboard.FilterNameInjective | components/FilterButtons.tsx:9-14 | different windows have different names |
| Dashboard.OnOrAfterCutoffDay | App.tsx:58-61 | the date test keeps exactly the records from one cutoff day on |
| Dashboard.HandleFilterChange | App.tsx:53-65 | no window: all records and `all`; a window: an ordered sublist holding every record on or after the cutoff, as many times as the store holds it, and no other; only the filter fields change |
| Dashboard.WindowsNest | App.tsx:57-63 | filtering a wider window's records by a narrower window gives the narrower window |
| Dashboard.SetAllData | App.tsx:67-92 | a change of the store resets the window to all records; a non-empty store then fetches the first insight again, clearing the conversation and setting the insight or the error; an empty store keeps the conversation and the insight as they were; the delete and answering fields never change |
| Dashboard.StoreChangeRestartsConversation | App.tsx:72-92 | after a change to a non-empty store whose insight is answered, the card shows that insight formatted and no bubble |
| Dashboard.HandleSaleAdded | App.tsx:113-117 | the store becomes a permutation of the old records plus the new one, one longer, oldest first; the conversation is cleared and the new insight, or the error with the old insight, is set; the delete and answering fields are kept |
| Dashboard.SaleAddedKeepsDayOrder | App.tsx:114 | records of one day keep their order, the new record after the others of its day |
| Dashboard.RequestDeleteConfirmation | App.tsx:119-121 | the record is remembered for the dialog and nothing else changes |
| Dashboard.HandleConfirmDelete | App.tsx:123-135 | no selection changes nothing; otherwise exactly the records with another id remain, in order, and the dialog closes; when records remain the conversation is cleared and the new insight, or the error with the old insight, is set; when none remain the conversation and insight are kept; the answering flag is kept |
| Dashboard.DeleteRemovesExactly | App.tsx:129 | the remaining records and those with the selected id make up the old store |
| Dashboard.DeleteAbsentId | App.tsx:129 | an id no record carries leaves the store unchanged |
| Dashboard.ErrorText | App.tsx:106 | the thrown message when it is not empty, and the fallback exactly when it is |
| Dashboard.HandleAskQuery | App.tsx:94-111 | a blank query changes nothing; otherwise the question is appended, then one answer on success, or the error on failure with the history ending in the question; only the conversation, the answering flag and the error line change |
| Dashboard.FetchInitialInsight | App.tsx:72-85 | nothing without records; otherwise the conversation is cleared, loading ends, and the insight or the error is set; no other field changes |
| Dashboard.SendReachesConversation | components/AiInsightCard.tsx:115 | a question the send button lets through is appended; once answered, the card shows the conversation without the first insight, the answer last |
| SaleForm.ResetForm | components/AddSaleModal.tsx:27-38 | empty texts, one unit at 100.00, today's date, no error, idle |
| SaleForm.ResetFormRejected | components/AddSaleModal.tsx:14-20 | a form just opened or reset is rejected for missing fields |
| SaleForm.HandleSubmit | components/AddSaleModal.tsx:40-68 | rejected exactly when a required field is missing or a number is out of range, the missing-field error first, only the error line changing; otherwise submitting, with the built record |
| SaleForm.Draft | components/AddSaleModal.tsx:55-68 | product and customer name trimmed, the other fields copied, revenue units times price in cents |
| SaleForm.AcceptedDraftWellFormed | components/AddSaleModal.tsx:44-65 | an accepted record has its required texts non-empty and trimmed, at least one unit, non-negative revenue, and gives back the price as revenue over units |
| SaleForm.SubmitTrimmedFields | components/AddSaleModal.tsx:57-62 | trimming the texts beforehand changes neither acceptance nor the record |
| SaleForm.Complete | components/AddSaleModal.tsx:71-83 | success and the shown record if `onAddSale` returns; idle with an error if it throws; the fields untouched |
| SaleForm.SubmitCycle | components/AddSaleModal.tsx:40-84 | from idle: a rejection stays idle with an error; an acceptance goes through submitting to success, or back to idle with the failure error |
| SaleForm.SaleToAdd | components/AddSaleModal.tsx:73 | the record handed over carries the given id and every field of the built record: date, product, category, region, revenue, units and customer |
| MockData.CategoriesOfCatalog | hooks/useMockData.ts:15 | each catalogue category once, in the order the catalogue first names it |
| MockData.Pick | hooks/useMockData.ts:34 | `floor(random * k)` is an index below `k` |
| MockData.MockRevenue | hooks/useMockData.ts:38-46 | revenue is units times the drawn price, `100 + random * 1900` dollars, rounded to the nearest cent; hence between 100 and 2000 dollars per unit |
| MockData.SaleIdInjective | hooks/useMockData.ts:41 | different rounds give different ids |
| MockData.Generated | hooks/useMockData.ts:30-50 | one record per round, round `i` with id `sale_<i+1>`, each within the bounds, no two equal |
| MockData.GenerateMockData | hooks/useMockData.ts:26-52 | `count` records, a permutation of the generated ones, oldest first, ids pairwise distinct and among `sale_1` to `sale_<count>`, each dated 0 to 364 days back with a catalogue item, a listed region and customer, and 1 to 10 units |

## Left out

- services/geminiService.ts is not part of this model. It is a network
  client. Its answers and failures enter as the `Outcome` parameter.
- Reading and writing `localStorage`, and the JSON parsing and mock-data
  fallback in App.tsx:31-46, are left out. The store is an in-memory sequence.
  A record added by `handleSaleAdded` is in the store even when the write
  that follows it throws.
- `setTimeout` delays and the interleaving of `await`s are left out. Each
  handler is one step. A response that resolves after a newer request is not
  modelled.
- components/AnimatedNumber.tsx, Header.tsx, KpiCard.tsx,
  DeleteConfirmationModal.tsx, FilterButtons.tsx and the chart drawing are
  presentation. Only the filter windows of FilterButtons.tsx are kept.
- Opening and closing the add-sale modal (`isAddSaleModalOpen`) and the
  `isDeleting` spinner are presentation. Delete is one step that ends with
  `isDeleting` false.
- The browser's own form validation (`required`, `min`, `step`) and the
  modal's success view are left out.
- Kpis.ComputeKpis: works on exact cents. The source sums floating-point
  numbers and formats the results as text: total revenue is shown rounded to
  whole dollars (`maximumFractionDigits: 0`, App.tsx:144) and the average to
  two decimals (`toFixed(2)`, App.tsx:147). The model keeps total revenue in
  exact cents and does not model the rounding to whole dollars, the
  thousands separators, or the rounding of binary fractions.
- MockData.MockRevenue: the revenue is the exact value rounded to the
  nearest cent. The source rounds a floating-point product with `toFixed(2)`.
- MockData.GenerateMockData: the date is `today` minus whole days. The
  source's local-time `setDate` followed by the UTC `toISOString` can shift
  the day by one near midnight.
- Dashboard.HandleFilterChange: takes the instant `pastMillis` (now less the
  window, in local time) as a parameter. The calendar arithmetic of
  `setDate` is not modelled.
- Dashboard.HandleFilterChange: the window is a natural number. Only 7, 30
  and 90 are ever passed.
- Charts.RevenueByLabel: the locale's month-and-day label
  (`toLocaleDateString`) is an uninterpreted parameter.
- Grouping.GroupSum: keys that clash with the names of `Object.prototype`
  properties (such as `constructor`) are treated as ordinary keys.
- Sorting.Sort: compares strings character by character (code points).
  JavaScript compares UTF-16 code units, which order differently only for
  characters outside the Basic Multilingual Plane.
- Sorting.Sort: the engine's sort algorithm is not modelled. Any stable sort
  gives the same result as the insertion sort modelled here, and stability
  is stated.
- Dashboard.SetAllData: the filter effect (App.tsx:67-70) and the insight
  effect (App.tsx:88-92) run as one step. The spinner shown while the insight
  loads is not a state of the model.
- Dashboard.HandleSaleAdded: the source sorts by the difference of
  timestamps. Its sign is the sign of the date comparator used here, and the
  sort depends only on the sign.
- SaleForm.Draft: units and price are whole numbers (units, cents). The
  source's `Number(...)` can also hold fractions and `NaN`, which pass its
  checks.
- Table.RequestSort: accepts every sort key. The headers offer five of them
  (components/DataTable.tsx:72-78); the others are never requested.
- Table.Render: the delete button of each row is left out (it only sets
  `saleToDelete`, modelled by `Dashboard.RequestDeleteConfirmation`).
- On an empty store the assistant card keeps its initial spinner
  (`isLoadingInsight` starts true and `fetchInitialInsight` returns early).
  The model reproduces this (`Dashboard.InitialApp`, `Dashboard.FetchInitialInsight`)
  but states no lemma about it.
