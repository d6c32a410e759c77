# Sales dashboard view model, in Dafny

This project models the client-side data pipeline of a small sales-transaction
dashboard (the React component in `src/App.js`). The component keeps the full
list of transactions fetched from the data proxy. It filters that list by a
free-text search and by month, and it shows the result five rows at a time.
From the filtered list it also derives three summary figures (total sales,
sold items, unsold items) and a bar chart of how many transactions fall into
ten fixed price ranges.

Modules, one per piece of the component:

- `Transactions` (transactions.dfy): the `Transaction` record. Also `Locale`,
  which holds the two host services the component calls but does not define:
  `toLowerCase`, and the long month name of a sale date. Both are function
  values, so the results hold whatever those services return. The single
  exception is `Dashboard.ClearSearch`, which assumes `lower("") == ""`, as
  JavaScript's `toLowerCase` gives.
- `Search` (search.dfy): `String.prototype.includes` and the search and month
  tests. `Filter` is the `data.filter(...)` of `filterData`.
- `Statistics` (statistics.dfy): `calculateStatistics` as pure functions.
- `PriceChart` (price_chart.dfy): the price bucketing. `PriceRanges` is the
  counting loop of `updateChartData`, over a dictionary keyed by range label.
- `Pagination` (pagination.dfy): JavaScript `slice` semantics, the page slice,
  the page count and the page buttons.
- `Dashboard` (dashboard.dfy): class `App`. It holds the component's state
  cells as fields, and the handlers (`getdata`'s state effects,
  `handleSearchChange`, `handleMonthChange`, `filterData`, ...) are methods
  that assign them step by step.
- `Scenarios` (scenarios.dfy): worked examples on a two-item dataset. They
  are checked against the handlers' contracts alone.

Prices are exact `real` numbers. The bucket tests therefore compare real
values: a price of 100.5 falls into "101-200", as it does in the source.

Two behaviours of the code differ from what the dashboard evidently aims
at (a view that always matches its filters, and a page from 1 to the page
count). The model follows the code in both:

- Loading the dataset (`getdata`, src/App.js:22-29) does not reset the current
  page. It also sets the filtered list to the whole dataset, whatever the
  search box and month selector hold. So the filtered list is guaranteed to
  match the filters only while both are empty, which they are until the user
  types or picks a month. `Dashboard.App.Load` states that it matches them
  whenever both are empty. With a filter set, it matches only if every
  loaded transaction happens to pass that filter.
- The current page is not always between 1 and the page count. With an empty
  filtered list there are no pages, and "Last" selects page 0. If that
  happens before the dataset arrives, the page stays 0 after loading, and
  page 0 shows no rows (`slice(-5, 0)` is empty). `Pagination.PageTarget`,
  `Pagination.PageZeroIsEmpty` and `Scenarios.LastBeforeLoadScenario` state
  this.

## Model

| member | source | states |
|---|---|---|
| Search.Includes | src/App.js:49-50 | `String.prototype.includes`; `IncludesIffOccurs` and `IncludesEmpty` carry its properties |
| Search.MatchesSearch | src/App.js:49-50 | the lowercased title or the lowercased description includes the term; used by `FilterMembers` and `KeptExactlyWhenMatching` |
| Search.MatchesMonth | src/App.js:51-52 | no month is selected, or the long month name of the sale date is the selected one; used by `FilterMembers` and `KeptExactlyWhenMatching` |
| Search.Matches | src/App.js:54 | both tests pass; `KeptExactlyWhenMatching` proves that the filter keeps a transaction exactly when this holds |
| Search.IncludesIffOccurs | src/App.js:49-50 | `includes` holds exactly when the needle occurs at some position of the text (both directions) |
| Search.IncludesEmpty | src/App.js:49-50 | every text includes the empty string, so an empty search term matches every transaction |
| Search.Filter | src/App.js:48-55 | the filtered list is never longer than the dataset |
| Search.FilterMembers | src/App.js:48-55 | a transaction is in the filtered list exactly when it is in the dataset and passes both the search test and the month test |
| Search.KeptPositions | src/App.js:48-55 | the filtered list is the dataset read at strictly increasing positions, so it is an order-preserving subsequence |
| Search.KeptExactlyWhenMatching | src/App.js:48-55 | a position is kept exactly when its transaction matches: kept ones pass both tests, dropped ones fail at least one |
| Search.FilterWithoutCriteria | src/App.js:48-55 | with an empty search term and no month selected, the filtered list is the whole dataset |
| Search.FilterIdempotent | src/App.js:48-55 | filtering the filtered list again with the same criteria changes nothing |
| Statistics.SoldItems | src/App.js:64 | there are never more sold items than transactions |
| Statistics.SoldItemsMembers | src/App.js:64 | the sold items are exactly the transactions marked sold |
| Statistics.SumOfPrices | src/App.js:65 | the `reduce` from 0 that adds prices; `SummarizeMeaning` ties it to the independent `Revenue` |
| Statistics.Summarize | src/App.js:63-69 | the three figures `calculateStatistics` stores; `SummarizeMeaning`, `SummarizeEmpty`, `TotalSalesNonNegative` and `SummarizeAppend` carry their properties |
| Statistics.SummarizeMeaning | src/App.js:63-70 | sold plus unsold equals the number of transactions; the unsold count is the number of unsold transactions; total sales is the sum of prices of sold transactions |
| Statistics.SummarizeEmpty | src/App.js:63-70 | an empty list gives total 0, sold 0, unsold 0 |
| Statistics.TotalSalesNonNegative | src/App.js:64-65 | with no negative price the total is not negative |
| Statistics.SummarizeAppend | src/App.js:63-70 | all three figures add up over a concatenation of lists |
| PriceChart.BucketOf | src/App.js:87-97 | the chain picks the one range holding the price: up to 100, or above 100·k and at most 100·(k+1), or above 900; no other range holds it |
| PriceChart.BucketMonotone | src/App.js:88-97 | a higher price never lands in a lower range |
| PriceChart.LabelsDistinct | src/App.js:73-84 | the ten range labels are pairwise different |
| PriceChart.CountIn | src/App.js:86-98 | the number of transactions whose price falls into one range, never more than the number of transactions |
| PriceChart.ChartOf | src/App.js:100-109 | the labels in order with their counts (the `datasets` wrapper is left out); `ChartCountsEveryTransaction` and `PriceRanges` carry its properties |
| PriceChart.BucketCountsStep | src/App.js:86-98 | one more transaction adds one to its own range's count and leaves the other nine unchanged |
| PriceChart.ChartCountsEveryTransaction | src/App.js:73-101 | the chart always has all ten labels and ten counts, and the counts add up to the number of transactions |
| PriceChart.PriceRanges | src/App.js:73-98 | the dictionary's keys are exactly the ten labels, and each counter is the number of transactions in its range |
| Pagination.Slice | src/App.js:114 | `Array.prototype.slice`, with negative positions counted back from the end and every position clamped to the list; its properties are in `SliceContiguous` and `SliceInside` |
| Pagination.SliceContiguous | src/App.js:114 | whatever the two positions, negative or past the end, the result is one unbroken run of the list |
| Pagination.SliceInside | src/App.js:114 | with both positions inside the list and in order, the result is the plain sub-list between them |
| Pagination.PageItems | src/App.js:112-114 | a page holds at most five items; page p from 1 on holds consecutive items starting at position 5·(p-1) |
| Pagination.TotalPages | src/App.js:115 | the page count is the ceiling of length/5: enough pages of five for every item, and no spare page |
| Pagination.PageSizes | src/App.js:112-115 | every page before the last is full, the last holds one to five items, and later pages are empty |
| Pagination.EmptyListEmptyPage | src/App.js:112-114 | an empty list gives an empty page for any page number |
| Pagination.PageZeroIsEmpty | src/App.js:112-114 | page 0 shows nothing, even for a non-empty list |
| Pagination.PagesCoverList | src/App.js:112-115 | reading pages 1 to the last in order gives back the whole list |
| Pagination.PageTarget | src/App.js:220-247 | with at least one page, every button selects a page from 1 to the page count; with none, "Last" selects page 0 |
| Dashboard.App.constructor | src/App.js:9-20 | empty data, empty filters, page 1, zero figures, empty chart |
| Dashboard.App.Load | src/App.js:22-29 | data and filtered list become the loaded list; figures and chart are computed from it; filters and page are unchanged; the view matches the filters when both are empty |
| Dashboard.App.HandleSearchChange | src/App.js:35-39 | the stored term is the lowercased input; the full dataset is filtered with it and the current month; page 1; figures and chart follow the new list |
| Dashboard.App.HandleMonthChange | src/App.js:41-45 | the stored month is the chosen one; the full dataset is filtered with the current term and that month; page 1; figures and chart follow the new list |
| Dashboard.App.FilterData | src/App.js:47-61 | the filtered list is computed from the full dataset, never from the previous filtered list; page 1; figures and chart recomputed from the new list |
| Dashboard.App.CalculateStatistics | src/App.js:63-70 | the three stored figures are those of the given list |
| Dashboard.App.UpdateChartData | src/App.js:72-110 | the stored chart has the ten labels in order with each range's count |
| Dashboard.App.GoTo | src/App.js:217-251 | a button click stores the page the button selects, which lies from 1 to the page count whenever there is a page |
| Dashboard.App.CurrentItems | src/App.js:112-114 | the table shows at most five transactions, all from the filtered list, and none when the filtered list is empty |
| Dashboard.RepeatedSearch | src/App.js:35-39 | the state after the first keystroke is the old dataset filtered with the lowercased input and the old month, page 1, with that list's figures and chart; typing the same text again ends in that same state |
| Dashboard.RepeatedMonthChange | src/App.js:41-45 | the state after the first pick is the old dataset filtered with the old term and the chosen month, page 1, with that list's figures and chart; picking the same month again ends in that same state |
| Dashboard.ClearSearch | src/App.js:35-55 | clearing the search with no month selected shows the whole dataset again |
| Scenarios.SearchForA | src/App.js:48-55 | on the sample data, searching "a" keeps only the item titled "A" |
| Scenarios.PickMarch | src/App.js:48-55 | on the sample data, picking March keeps only the March item |
| Scenarios.FiguresOfOneItem | src/App.js:63-98 | a single transaction gives its own price and sold count and one count in its own range |

## Left out

- backend/server.js is not part of this model. It is an HTTP pass-through to a fixed URL with a catch-all 500 reply, and it has no logic of its own.
- The `fetch` and `response.json()` calls of `getdata` are not modelled. `Dashboard.App.Load` models only a successful fetch whose reply parses as a list of transactions, and it takes that list as a parameter. A network failure rejects before any state is set, so it leaves the state as it was.
- The proxy's failure reply is not modelled. On an upstream error, backend/server.js:15-16 answers status 500 with a JSON object holding a message and the error. `fetch` does not reject on a 500, so `getdata` stores that object as both the data and the filtered list (src/App.js:25-26). `calculateStatistics` then throws at `transactions.filter`, and the next render throws at `filteredData.slice`. The model's state only ever holds lists.
- Date parsing, locale month naming and Unicode lowercasing are not specified. They are the uninterpreted `Locale` functions. The only thing assumed about them is `lower("") == ""`, in `Dashboard.ClearSearch`. Case-insensitive search holds to the extent that `lower` folds case.
- Floating-point arithmetic is not modelled. Prices and their sum are exact reals. The `toFixed(2)` display rounding is also left out.
- Malformed records are not modelled. A missing `price` or an unparsable date would give `NaN` or `Invalid Date` in the source; here every record has every field.
- JSX rendering, Bootstrap markup and the Chart.js configuration are left out: the `datasets` wrapper, its label and its colour. `ChartData` keeps only the labels and the counts. The "First" and "Last" buttons are disabled when they would select the current page; clicking them would change nothing anyway, so the model lets them be clicked.
- React's state cells are modelled as fields assigned in order. Each handler sees the state of its render, which for one event is the latest state; re-rendering and update batching are not modelled.
