/** Worked examples of the dashboard on a two-item dataset, checked against
    the contracts of the handlers alone. */
module Scenarios {
  import opened Transactions
  import opened Statistics
  import opened PriceChart
  import opened Pagination
  import Search
  import opened Dashboard

  /** ASCII lowercasing, standing in for the host's `toLowerCase`. */
  function AsciiLower(s: string): (r: string)
    ensures |r| == |s|
  {
    seq(|s|, i requires 0 <= i < |s| => if 'A' <= s[i] <= 'Z' then (s[i] as int + 32) as char else s[i])
  }

  /** Month names for the two sample dates. */
  function SampleMonth(date: string): string
  {
    if date == "2021-01-15" then "January"
    else if date == "2021-03-10" then "March"
    else ""
  }

  const Sample := Locale(AsciiLower, SampleMonth)
  const ItemA := Transaction(1, "A", "", 50.0, "toys", true, "2021-01-15", "")
  const ItemB := Transaction(2, "B", "", 150.0, "toys", false, "2021-03-10", "")

  lemma SearchForA()
    ensures Search.Filter(Sample, [ItemA, ItemB], "a", "") == [ItemA]
  {
    assert AsciiLower(ItemA.title) == "a";
    assert AsciiLower(ItemB.title) == "b";
    assert Search.Includes("a", "a");
    assert "b"[..1] == "b" && "b"[1..] == "" && "b"[0] != "a"[0];
    assert !Search.Includes("b", "a");
    assert !Search.Includes("", "a");
    assert [ItemA, ItemB][..1] == [ItemA];
    assert [ItemA][..0] == [];
  }

  lemma PickMarch()
    ensures Search.Filter(Sample, [ItemA, ItemB], "", "March") == [ItemB]
  {
    assert [ItemA, ItemB][..1] == [ItemA];
    assert [ItemA][..0] == [];
  }

  lemma FiguresOfOneItem(t: Transaction)
    ensures Summarize([t]) == if t.sold then Stats(t.price, 1, 0) else Stats(0.0, 0, 1)
    ensures BucketCounts([t])[BucketOf(t.price)] == 1
    ensures forall k :: 0 <= k < BucketCount && k != BucketOf(t.price) ==> BucketCounts([t])[k] == 0
  {
    assert [t][..0] == [];
    assert SoldItems([t]) == if t.sold then [t] else [];
    assert SumOfPrices([t]) == t.price;
    forall k | 0 <= k < BucketCount
      ensures BucketCounts([t])[k] == if BucketOf(t.price) == k then 1 else 0
    {
      assert CountIn([t], k) == CountIn([], k) + (if BucketOf(t.price) == k then 1 else 0);
    }
  }

  /** Typing "A" keeps only the first item, whatever the case of the typed
      text: the figures and the chart then describe that item alone. */
  method SearchScenario()
  {
    var app := new App(Sample);
    app.Load([ItemA, ItemB]);
    assert AsciiLower("A") == "a";
    app.HandleSearchChange("A");
    SearchForA();
    FiguresOfOneItem(ItemA);
    assert app.filteredData == [ItemA];
    assert app.totalSales == 50.0 && app.totalSoldItems == 1 && app.totalNotSoldItems == 0;
    assert app.chartData.counts[0] == 1 && app.chartData.counts[1] == 0;
    assert app.currentPage == 1;
    assert app.CurrentItems() == [ItemA];
  }

  /** Picking March keeps only the second item, which is unsold. */
  method MonthScenario()
  {
    var app := new App(Sample);
    app.Load([ItemA, ItemB]);
    app.HandleMonthChange("March");
    PickMarch();
    FiguresOfOneItem(ItemB);
    assert app.filteredData == [ItemB];
    assert app.totalSales == 0.0 && app.totalSoldItems == 0 && app.totalNotSoldItems == 1;
    assert app.chartData.counts[1] == 1 && app.chartData.counts[0] == 0;
  }

  /** With an empty dataset every figure and every count is zero, and the
      table is empty. */
  method EmptyScenario()
  {
    var app := new App(Sample);
    app.Load([]);
    assert app.filteredData == [];
    assert app.totalSales == 0.0 && app.totalSoldItems == 0 && app.totalNotSoldItems == 0;
    assert forall k :: 0 <= k < BucketCount ==> app.chartData.counts[k] == 0;
    assert app.CurrentItems() == [];
  }

  /** Clicking "Last" before the dataset has arrived selects page 0, and the
      page is not reset when the dataset arrives: the table then stays empty
      although the filtered list is not. */
  method LastBeforeLoadScenario()
  {
    var app := new App(Sample);
    app.GoTo(Last);
    assert app.currentPage == 0;
    app.Load([ItemA, ItemB]);
    assert app.currentPage == 0;
    assert |app.filteredData| == 2;
    PageZeroIsEmpty(app.filteredData);
    assert app.CurrentItems() == [];
  }
}
