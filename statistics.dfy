/** The three summary figures shown above the table (`calculateStatistics`,
    src/App.js): total sales, number of sold items, number of unsold items. */
module Statistics {
  import opened Transactions

  datatype Stats = Stats(totalSales: real, soldCount: nat, notSoldCount: nat)

  /** `transactions.filter(item => item.sold)`. */
  function SoldItems(ts: seq<Transaction>): (r: seq<Transaction>)
    ensures |r| <= |ts|
  {
    if ts == [] then []
    else
      var t := ts[|ts| - 1];
      var sold := SoldItems(ts[..|ts| - 1]);
      if t.sold then sold + [t] else sold
  }

  /** The sold items are exactly the transactions marked sold. */
  lemma {:induction false} SoldItemsMembers(ts: seq<Transaction>)
    ensures forall t :: t in SoldItems(ts) <==> t in ts && t.sold
  {
    if ts != [] {
      var n := |ts| - 1;
      SoldItemsMembers(ts[..n]);
      assert ts == ts[..n] + [ts[n]];
    }
  }

  /** `reduce((sum, item) => sum + item.price, 0)`: a left fold from 0. */
  function SumOfPrices(ts: seq<Transaction>): real
  {
    if ts == [] then 0.0 else SumOfPrices(ts[..|ts| - 1]) + ts[|ts| - 1].price
  }

  /** The figures the dashboard shows for a list of transactions. */
  function Summarize(ts: seq<Transaction>): Stats
  {
    var sold := SoldItems(ts);
    Stats(SumOfPrices(sold), |sold|, |ts| - |sold|)
  }

  // Reference definitions, written independently of the filter-then-reduce
  // shape of the source.

  /** The transactions not yet sold. */
  function UnsoldItems(ts: seq<Transaction>): seq<Transaction>
  {
    if ts == [] then []
    else
      var t := ts[|ts| - 1];
      var unsold := UnsoldItems(ts[..|ts| - 1]);
      if t.sold then unsold else unsold + [t]
  }

  /** The revenue of a list: each transaction contributes its price when it
      is sold and nothing otherwise. */
  function Revenue(ts: seq<Transaction>): real
  {
    if ts == [] then 0.0
    else Revenue(ts[..|ts| - 1]) + (if ts[|ts| - 1].sold then ts[|ts| - 1].price else 0.0)
  }

  /** The figures mean what their labels say: sold plus unsold is the number
      of transactions, the unsold count is the number of unsold transactions,
      and total sales is the revenue of the sold ones. */
  lemma {:induction false} SummarizeMeaning(ts: seq<Transaction>)
    ensures Summarize(ts).soldCount + Summarize(ts).notSoldCount == |ts|
    ensures Summarize(ts).notSoldCount == |UnsoldItems(ts)|
    ensures Summarize(ts).totalSales == Revenue(ts)
  {
    if ts != [] {
      SummarizeMeaning(ts[..|ts| - 1]);
    }
  }

  /** With nothing to summarise, every figure is zero. */
  lemma SummarizeEmpty()
    ensures Summarize([]) == Stats(0.0, 0, 0)
  {
  }

  /** When no price is negative, neither is the total. */
  lemma {:induction false} TotalSalesNonNegative(ts: seq<Transaction>)
    requires forall t :: t in ts ==> t.price >= 0.0
    ensures Summarize(ts).totalSales >= 0.0
  {
    SummarizeMeaning(ts);
    RevenueNonNegative(ts);
  }

  lemma {:induction false} RevenueNonNegative(ts: seq<Transaction>)
    requires forall t :: t in ts ==> t.price >= 0.0
    ensures Revenue(ts) >= 0.0
  {
    if ts != [] {
      assert forall t :: t in ts[..|ts| - 1] ==> t in ts;
      RevenueNonNegative(ts[..|ts| - 1]);
      assert ts[|ts| - 1] in ts;
    }
  }

  /** The figures are additive: summarising two lists one after the other is
      adding their figures. */
  lemma {:induction false} SummarizeAppend(a: seq<Transaction>, b: seq<Transaction>)
    ensures Summarize(a + b).totalSales == Summarize(a).totalSales + Summarize(b).totalSales
    ensures Summarize(a + b).soldCount == Summarize(a).soldCount + Summarize(b).soldCount
    ensures Summarize(a + b).notSoldCount == Summarize(a).notSoldCount + Summarize(b).notSoldCount
  {
    RevenueAppend(a, b);
    SummarizeMeaning(a);
    SummarizeMeaning(b);
    SummarizeMeaning(a + b);
  }

  lemma {:induction false} RevenueAppend(a: seq<Transaction>, b: seq<Transaction>)
    ensures Revenue(a + b) == Revenue(a) + Revenue(b)
    ensures |SoldItems(a + b)| == |SoldItems(a)| + |SoldItems(b)|
  {
    if b != [] {
      var n := |b| - 1;
      assert (a + b)[..|a + b| - 1] == a + b[..n];
      RevenueAppend(a, b[..n]);
    } else {
      assert a + b == a;
    }
  }
}
