/** The filter behind the search box and the month selector: which
    transactions of the full dataset are shown (`filterData`, src/App.js). */
module Search {
  import opened Transactions

  /** JavaScript's `hay.includes(needle)`: `needle` occurs in `hay` at the
      first position, or somewhere after it. */
  function Includes(hay: string, needle: string): bool
    decreases |hay|
  {
    |needle| <= |hay| && (hay[..|needle|] == needle || Includes(hay[1..], needle))
  }

  /** `needle` is found in `hay` starting at position `i`. */
  ghost predicate OccursAt(hay: string, needle: string, i: int)
  {
    0 <= i && i + |needle| <= |hay| && hay[i..i + |needle|] == needle
  }

  /** The scan agrees with the positional definition of a substring, in both
      directions. */
  lemma {:induction false} IncludesIffOccurs(hay: string, needle: string)
    ensures Includes(hay, needle) <==> exists i :: OccursAt(hay, needle, i)
    decreases |hay|
  {
    if |needle| <= |hay| {
      if hay[..|needle|] == needle {
        assert OccursAt(hay, needle, 0);
      } else {
        IncludesIffOccurs(hay[1..], needle);
        forall i | OccursAt(hay, needle, i)
          ensures OccursAt(hay[1..], needle, i - 1)
        {
          if i == 0 {
            assert false;
          }
          assert hay[1..][i - 1..i - 1 + |needle|] == hay[i..i + |needle|];
        }
        if Includes(hay[1..], needle) {
          var i :| OccursAt(hay[1..], needle, i);
          assert hay[1..][i..i + |needle|] == hay[i + 1..i + 1 + |needle|];
          assert OccursAt(hay, needle, i + 1);
        }
      }
    }
  }

  /** Every string includes the empty string, so an empty search term keeps
      every transaction. */
  lemma {:induction false} IncludesEmpty(hay: string)
    ensures Includes(hay, "")
  {
    assert hay[..0] == "";
  }

  /** The title or the description, lowercased, contains `term`. The term
      itself arrives already lowercased (see Dashboard.HandleSearchChange). */
  predicate MatchesSearch(locale: Locale, t: Transaction, term: string)
  {
    Includes(locale.lower(t.title), term) || Includes(locale.lower(t.description), term)
  }

  /** No month is selected, or the sale happened in the selected month. */
  predicate MatchesMonth(locale: Locale, t: Transaction, month: string)
  {
    month == "" || locale.monthName(t.dateOfSale) == month
  }

  predicate Matches(locale: Locale, t: Transaction, term: string, month: string)
  {
    MatchesSearch(locale, t, term) && MatchesMonth(locale, t, month)
  }

  /** `data.filter(...)`: the transactions that match both the search term and
      the month, in their original order. */
  function Filter(locale: Locale, data: seq<Transaction>, term: string, month: string)
    : (r: seq<Transaction>)
    ensures |r| <= |data|
  {
    if data == [] then []
    else
      var t := data[|data| - 1];
      var kept := Filter(locale, data[..|data| - 1], term, month);
      assert data == data[..|data| - 1] + [t];
      if Matches(locale, t, term, month) then kept + [t] else kept
  }

  /** A transaction is in the filtered list exactly when it is in the dataset
      and matches both criteria. */
  lemma {:induction false} FilterMembers(locale: Locale, data: seq<Transaction>, term: string, month: string)
    ensures forall t :: t in Filter(locale, data, term, month) <==> t in data && Matches(locale, t, term, month)
  {
    if data != [] {
      var n := |data| - 1;
      FilterMembers(locale, data[..n], term, month);
      assert data == data[..n] + [data[n]];
    }
  }

  /** The positions in `data` of the transactions `Filter` keeps: they are
      increasing, so the original order is preserved, and they pick out
      exactly the filtered list. */
  ghost function KeptPositions(locale: Locale, data: seq<Transaction>, term: string, month: string)
    : (idx: seq<nat>)
    ensures |idx| == |Filter(locale, data, term, month)|
    ensures forall k :: 0 <= k < |idx| ==>
              idx[k] < |data| && Filter(locale, data, term, month)[k] == data[idx[k]]
    ensures forall k, l :: 0 <= k < l < |idx| ==> idx[k] < idx[l]
  {
    if data == [] then []
    else
      var n := |data| - 1;
      var kept := KeptPositions(locale, data[..n], term, month);
      assert forall i :: 0 <= i < n ==> data[..n][i] == data[i];
      var m := Matches(locale, data[n], term, month);
      var r := Filter(locale, data, term, month);
      var r' := Filter(locale, data[..n], term, month);
      assert r == r' + (if m then [data[n]] else []);
      var idx := if m then kept + [n] else kept;
      assert forall k :: 0 <= k < |kept| ==> idx[k] == kept[k] && r[k] == r'[k];
      idx
  }

  /** A position is kept exactly when its transaction matches: every kept
      transaction passes both the search and the month test, and every
      dropped one fails at least one of them. */
  lemma {:induction false} KeptExactlyWhenMatching(
    locale: Locale, data: seq<Transaction>, term: string, month: string, i: int)
    requires 0 <= i < |data|
    ensures i in KeptPositions(locale, data, term, month) <==> Matches(locale, data[i], term, month)
  {
    var n := |data| - 1;
    var kept := KeptPositions(locale, data[..n], term, month);
    assert KeptPositions(locale, data, term, month)
        == if Matches(locale, data[n], term, month) then kept + [n] else kept;
    if i < n {
      KeptExactlyWhenMatching(locale, data[..n], term, month, i);
      assert data[..n][i] == data[i];
    } else {
      assert forall k :: 0 <= k < |kept| ==> kept[k] < n;
    }
  }

  /** With an empty search term and no month selected, nothing is filtered out. */
  lemma {:induction false} FilterWithoutCriteria(locale: Locale, data: seq<Transaction>)
    ensures Filter(locale, data, "", "") == data
  {
    if data != [] {
      var n := |data| - 1;
      FilterWithoutCriteria(locale, data[..n]);
      IncludesEmpty(locale.lower(data[n].title));
      assert data == data[..n] + [data[n]];
    }
  }

  /** Filtering the filtered list again with the same criteria changes nothing. */
  lemma {:induction false} FilterIdempotent(locale: Locale, data: seq<Transaction>, term: string, month: string)
    ensures Filter(locale, Filter(locale, data, term, month), term, month) == Filter(locale, data, term, month)
  {
    if data != [] {
      var n := |data| - 1;
      var kept := Filter(locale, data[..n], term, month);
      FilterIdempotent(locale, data[..n], term, month);
      if Matches(locale, data[n], term, month) {
        assert (kept + [data[n]])[..|kept|] == kept;
      }
    }
  }
}
