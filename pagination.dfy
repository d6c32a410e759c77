/** The table shows the filtered transactions five at a time (src/App.js,
    the page slice, the page count and the page buttons). */
module Pagination {

  const ItemsPerPage: nat := 5

  /** Where `Array.prototype.slice` starts or stops in a list of length `n`
      when given position `i`: a negative position counts back from the end,
      and the result is clamped to `0..n`. */
  function SlicePosition(n: nat, i: int): nat
  {
    if i < 0 then (if n + i < 0 then 0 else n + i)
    else if i > n then n
    else i
  }

  /** `s.slice(start, end)`: the elements between the two positions, or
      nothing when the end does not come after the start. */
  function Slice<T>(s: seq<T>, start: int, end: int): seq<T>
  {
    var from, to := SlicePosition(|s|, start), SlicePosition(|s|, end);
    if from < to then s[from..to] else []
  }

  /** `r` is the run of `s` that starts at position `f`. */
  ghost predicate RunAt<T>(s: seq<T>, r: seq<T>, f: int)
  {
    0 <= f && f + |r| <= |s| && r == s[f..f + |r|]
  }

  /** Whatever the two positions, negative or past the end, `slice` returns
      one unbroken run of the list. */
  lemma SliceContiguous<T>(s: seq<T>, start: int, end: int)
    ensures exists f :: RunAt(s, Slice(s, start, end), f)
  {
    var r := Slice(s, start, end);
    if |r| == 0 {
      assert RunAt(s, r, 0);
    } else {
      assert RunAt(s, r, SlicePosition(|s|, start));
    }
  }

  /** With both positions inside the list and in order, `slice` is the
      plain sub-list between them. */
  lemma SliceInside<T>(s: seq<T>, start: int, end: int)
    requires 0 <= start <= end <= |s|
    ensures Slice(s, start, end) == s[start..end]
  {
  }

  /** `filteredData.slice(indexOfFirstItem, indexOfLastItem)` with
      `indexOfLastItem = currentPage * itemsPerPage` and
      `indexOfFirstItem = indexOfLastItem - itemsPerPage`. Whatever the page
      number, at most five items come back, and on a page from 1 on they are
      the consecutive items that start at position (page - 1) * 5. */
  function PageItems<T>(s: seq<T>, page: int): (r: seq<T>)
    ensures |r| <= ItemsPerPage
    ensures page >= 1 ==>
              forall j :: 0 <= j < |r| ==>
                (page - 1) * ItemsPerPage + j < |s| && r[j] == s[(page - 1) * ItemsPerPage + j]
  {
    var last := page * ItemsPerPage;
    var first := last - ItemsPerPage;
    Slice(s, first, last)
  }

  /** `Math.ceil(filteredData.length / itemsPerPage)`: the fewest pages of
      five that hold `n` items. */
  function TotalPages(n: nat): (r: nat)
    ensures n <= r * ItemsPerPage
    ensures r == 0 || (r - 1) * ItemsPerPage < n
  {
    (n + ItemsPerPage - 1) / ItemsPerPage
  }

  /** Every page before the last is full, the last one holds between one and
      five items, and there is nothing after it. */
  lemma PageSizes<T>(s: seq<T>, page: int)
    requires page >= 1
    ensures page < TotalPages(|s|) ==> |PageItems(s, page)| == ItemsPerPage
    ensures page == TotalPages(|s|) ==> 1 <= |PageItems(s, page)| <= ItemsPerPage
    ensures page > TotalPages(|s|) ==> PageItems(s, page) == []
  {
  }

  /** An empty list gives an empty page, whatever the page number. */
  lemma EmptyListEmptyPage<T>(page: int)
    ensures PageItems<T>([], page) == []
  {
  }

  /** Page 0, which the "Last" button selects when there are no pages, shows
      nothing even once the list is not empty: `slice(-5, 0)` is empty. */
  lemma PageZeroIsEmpty<T>(s: seq<T>)
    ensures PageItems(s, 0) == []
  {
  }

  /** Pages 1 to `k`, one after the other. */
  function PagesUpTo<T>(s: seq<T>, k: nat): seq<T>
  {
    if k == 0 then [] else PagesUpTo(s, k - 1) + PageItems(s, k)
  }

  /** Reading the pages in order from 1 to the last gives back the whole
      list: no transaction is skipped or shown twice. */
  lemma PagesCoverList<T>(s: seq<T>)
    ensures PagesUpTo(s, TotalPages(|s|)) == s
  {
    PagesUpToPrefix(s, TotalPages(|s|));
    assert s[..|s|] == s;
  }

  lemma {:induction false} PagesUpToPrefix<T>(s: seq<T>, k: nat)
    ensures PagesUpTo(s, k) == s[..if k * ItemsPerPage < |s| then k * ItemsPerPage else |s|]
  {
    if k > 0 {
      PagesUpToPrefix(s, k - 1);
      var a := if (k - 1) * ItemsPerPage < |s| then (k - 1) * ItemsPerPage else |s|;
      var b := if k * ItemsPerPage < |s| then k * ItemsPerPage else |s|;
      assert PageItems(s, k) == s[a..b];
      assert s[..a] + s[a..b] == s[..b];
    }
  }

  /** The buttons under the table: "First", one numbered button for each
      page (`index` counts from 0), and "Last". */
  datatype PageButton = First | Number(index: nat) | Last

  /** The page a button selects. With at least one page, every button
      selects a page that exists; with none, "Last" selects page 0. */
  function PageTarget(b: PageButton, totalPages: nat): (page: int)
    ensures totalPages >= 1 && (b.Number? ==> b.index < totalPages) ==> 1 <= page <= totalPages
    ensures totalPages == 0 ==> (page == 0 <==> b.Last?)
  {
    match b
    case First => 1
    case Number(index) => index + 1
    case Last => totalPages
  }
}
