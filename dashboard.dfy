/** The dashboard component of src/App.js: its state cells and the handlers
    that update them step by step. Each `setX(...)` call of the source is an
    assignment to field `x` here. */
module Dashboard {
  import opened Transactions
  import Search
  import opened Statistics
  import opened PriceChart
  import opened Pagination

  /** The value of every state cell at one moment. */
  datatype ViewState = ViewState(
    data: seq<Transaction>,
    filteredData: seq<Transaction>,
    searchTerm: string,
    selectedMonth: string,
    currentPage: int,
    stats: Stats,
    chartData: ChartData)

  class App {
    const locale: Locale
    var data: seq<Transaction>
    var filteredData: seq<Transaction>
    var searchTerm: string
    var selectedMonth: string
    var currentPage: int
    var totalSales: real
    var totalSoldItems: nat
    var totalNotSoldItems: nat
    var chartData: ChartData

    /** The figures and the chart always describe the filtered list (the chart
        is still empty only before the first computation), and no button ever
        selects a negative page. */
    ghost predicate Valid()
      reads this
    {
      && Stats(totalSales, totalSoldItems, totalNotSoldItems) == Summarize(filteredData)
      && (chartData == ChartOf(filteredData) || (chartData == NoChart && filteredData == []))
      && currentPage >= 0
    }

    /** The filtered list is what the search box and the month selector ask for. */
    ghost predicate Consistent()
      reads this
    {
      filteredData == Search.Filter(locale, data, searchTerm, selectedMonth)
    }

    function Snapshot(): ViewState
      reads this
    {
      ViewState(data, filteredData, searchTerm, selectedMonth, currentPage,
                Stats(totalSales, totalSoldItems, totalNotSoldItems), chartData)
    }

    /** The initial values of the `useState` cells. */
    constructor (locale: Locale)
      ensures Valid() && Consistent()
      ensures this.locale == locale
      ensures data == [] && filteredData == [] && searchTerm == "" && selectedMonth == ""
      ensures currentPage == 1 && chartData == NoChart
    {
      this.locale := locale;
      data, filteredData := [], [];
      searchTerm, selectedMonth := "", "";
      currentPage := 1;
      totalSales, totalSoldItems, totalNotSoldItems := 0.0, 0, 0;
      chartData := NoChart;
    }

    /** What `getdata` does once the fetch has succeeded and the reply has
        been parsed as a list of transactions: the whole dataset
        becomes both the data and the filtered list, whatever the search box
        and the month selector hold, and the page is left as it is. The
        filtered list is therefore guaranteed to agree with the filters only
        while both are empty, as they are until the user types or picks a
        month. */
    method Load(jsonData: seq<Transaction>)
      requires currentPage >= 0
      modifies this
      ensures Valid()
      ensures data == jsonData && filteredData == jsonData
      ensures searchTerm == old(searchTerm) && selectedMonth == old(selectedMonth)
      ensures currentPage == old(currentPage)
      ensures Stats(totalSales, totalSoldItems, totalNotSoldItems) == Summarize(jsonData)
      ensures chartData == ChartOf(jsonData)
      ensures searchTerm == "" && selectedMonth == "" ==> Consistent()
    {
      data := jsonData;
      filteredData := jsonData;
      CalculateStatistics(jsonData);
      UpdateChartData(jsonData);
      Unfiltered(locale, jsonData, searchTerm, selectedMonth);
      assert chartData == ChartOf(filteredData);
    }

    /** `handleSearchChange`: the typed text is lowercased, stored, and the
        full dataset is filtered again with it and the current month. */
    method HandleSearchChange(input: string)
      modifies this
      ensures Valid() && Consistent()
      ensures searchTerm == locale.lower(input)
      ensures data == old(data) && selectedMonth == old(selectedMonth)
      ensures filteredData == Search.Filter(locale, data, locale.lower(input), selectedMonth)
      ensures currentPage == 1
      ensures Stats(totalSales, totalSoldItems, totalNotSoldItems) == Summarize(filteredData)
      ensures chartData == ChartOf(filteredData)
    {
      var value := locale.lower(input);
      searchTerm := value;
      FilterData(value, selectedMonth);
    }

    /** `handleMonthChange`: the chosen month is stored and the full dataset
        is filtered again with the current search term and that month. */
    method HandleMonthChange(month: string)
      modifies this
      ensures Valid() && Consistent()
      ensures selectedMonth == month
      ensures data == old(data) && searchTerm == old(searchTerm)
      ensures filteredData == Search.Filter(locale, data, searchTerm, month)
      ensures currentPage == 1
      ensures Stats(totalSales, totalSoldItems, totalNotSoldItems) == Summarize(filteredData)
      ensures chartData == ChartOf(filteredData)
    {
      selectedMonth := month;
      FilterData(searchTerm, month);
    }

    /** `filterData`: always starts from the full dataset, never from the
        previous filtered list; goes back to the first page and recomputes the
        figures and the chart from the new filtered list. */
    method FilterData(term: string, month: string)
      modifies this`filteredData, this`currentPage, this`totalSales, this`totalSoldItems,
               this`totalNotSoldItems, this`chartData
      ensures Valid()
      ensures filteredData == Search.Filter(locale, data, term, month)
      ensures currentPage == 1
      ensures Stats(totalSales, totalSoldItems, totalNotSoldItems) == Summarize(filteredData)
      ensures chartData == ChartOf(filteredData)
    {
      var filtered := Search.Filter(locale, data, term, month);
      filteredData := filtered;
      currentPage := 1;
      CalculateStatistics(filtered);
      UpdateChartData(filtered);
    }

    /** `calculateStatistics`: stores the three figures for `ts`. */
    method CalculateStatistics(ts: seq<Transaction>)
      modifies this`totalSales, this`totalSoldItems, this`totalNotSoldItems
      ensures Stats(totalSales, totalSoldItems, totalNotSoldItems) == Summarize(ts)
    {
      var soldItems := SoldItems(ts);
      var totalSalesAmount := SumOfPrices(soldItems);
      totalSales := totalSalesAmount;
      totalSoldItems := |soldItems|;
      totalNotSoldItems := |ts| - |soldItems|;
    }

    /** `updateChartData`: counts the transactions of each price range and
        stores the labels with their counts, in label order. */
    method UpdateChartData(ts: seq<Transaction>)
      modifies this`chartData
      ensures chartData == ChartOf(ts)
    {
      var ranges := PriceRanges(ts);
      chartData := ChartData(Labels, seq(BucketCount, k requires 0 <= k < BucketCount => ranges[Labels[k]]));
    }

    /** A click on a page button. Numbered buttons are drawn only for the
        pages that exist. */
    method GoTo(b: PageButton)
      requires Valid()
      requires b.Number? ==> b.index < TotalPages(|filteredData|)
      modifies this`currentPage
      ensures Valid()
      ensures currentPage == PageTarget(b, TotalPages(|filteredData|))
      ensures 1 <= TotalPages(|filteredData|) ==> 1 <= currentPage <= TotalPages(|filteredData|)
    {
      currentPage := PageTarget(b, TotalPages(|filteredData|));
    }

    /** `currentItems`: the rows the table shows, at most five transactions
        of the filtered list, and none when the filtered list is empty. */
    function CurrentItems(): (r: seq<Transaction>)
      reads this
      ensures |r| <= ItemsPerPage
      ensures forall t :: t in r ==> t in filteredData
      ensures filteredData == [] ==> r == []
    {
      PageItems(filteredData, currentPage)
    }
  }

  /** Empty criteria keep the whole dataset. `FilterWithoutCriteria` stated
      as an implication, so that `Load` can use it in either case; this keeps
      the proof of `Load` small. */
  lemma Unfiltered(locale: Locale, data: seq<Transaction>, term: string, month: string)
    ensures term == "" && month == "" ==> Search.Filter(locale, data, term, month) == data
  {
    if term == "" && month == "" {
      Search.FilterWithoutCriteria(locale, data);
    }
  }

  /** Typing the same text twice leaves the dashboard as the first time:
      `once` is the state after the first keystroke, given in terms of the
      state before it, and the second keystroke ends in that same state. */
  method RepeatedSearch(app: App, input: string) returns (once: ViewState)
    requires app.Valid()
    modifies app
    ensures var f := Search.Filter(app.locale, old(app.data), app.locale.lower(input), old(app.selectedMonth));
            once == ViewState(old(app.data), f, app.locale.lower(input), old(app.selectedMonth), 1,
                              Summarize(f), ChartOf(f))
    ensures app.Snapshot() == once
  {
    app.HandleSearchChange(input);
    once := app.Snapshot();
    app.HandleSearchChange(input);
  }

  /** Picking the same month twice leaves the dashboard as the first time:
      `once` is the state after the first pick, given in terms of the state
      before it, and the second pick ends in that same state. */
  method RepeatedMonthChange(app: App, month: string) returns (once: ViewState)
    requires app.Valid()
    modifies app
    ensures var f := Search.Filter(app.locale, old(app.data), old(app.searchTerm), month);
            once == ViewState(old(app.data), f, old(app.searchTerm), month, 1, Summarize(f), ChartOf(f))
    ensures app.Snapshot() == once
  {
    app.HandleMonthChange(month);
    once := app.Snapshot();
    app.HandleMonthChange(month);
  }

  /** Because filtering starts from the full dataset, clearing the search
      box with no month selected shows every transaction again, however
      narrow the earlier searches were. */
  method ClearSearch(app: App)
    requires app.Valid() && app.selectedMonth == "" && app.locale.lower("") == ""
    modifies app
    ensures app.filteredData == app.data == old(app.data)
  {
    app.HandleSearchChange("");
    Search.FilterWithoutCriteria(app.locale, app.data);
  }
}
