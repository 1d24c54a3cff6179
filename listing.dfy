/**
 * The pagination and column-sort rules the browse and search states share
 * (ui/state/browse.py, search_torrents.py, search_files.py, search.py).
 */
module Listing {

  /** The result-limit choices; the browse page starts at the first, the search pages at the third. */
  const COUNT_OPTIONS: seq<string> := ["10", "20", "50", "100", "200", "500"]

  /** The half-width of the page-number window. */
  const WINDOW := 3

  /** `_total_pages`: the number of pages of `count` rows that hold `total` rows, at least 1. */
  function TotalPages(total: int, count: int): int {
    if count <= 0 then 1
    else
      var pages := (total + count - 1) / count;
      if pages > 1 then pages else 1
  }

  /** There is always a page, and with a positive page size the pages just hold the rows. */
  lemma TotalPagesSpec(total: int, count: int)
    ensures TotalPages(total, count) >= 1
    ensures count <= 0 || total <= 0 ==> TotalPages(total, count) == 1
    ensures count > 0 && total > 0 ==>
      (TotalPages(total, count) - 1) * count < total <= TotalPages(total, count) * count
  {
    if count > 0 && total > 0 {
      var q := (total + count - 1) / count;
      var m := (total + count - 1) % count;
      assert total + count - 1 == q * count + m;
      assert q >= 1;
    } else if count > 0 {
      var q := (total + count - 1) / count;
      var m := (total + count - 1) % count;
      assert total + count - 1 == q * count + m;
      assert q <= 0;
    }
  }

  /** `page_numbers`: the pages from `page - 3` to `page + 3` that exist, in ascending order. */
  function PageNumbers(page: int, totalPages: int): seq<int> {
    var start := if page - WINDOW > 1 then page - WINDOW else 1;
    var end := if totalPages < page + WINDOW then totalPages else page + WINDOW;
    if end < start then [] else seq(end - start + 1, i => start + i)
  }

  /**
   * The window is consecutive and ascending, and holds exactly the pages
   * `p` with `1 <= p <= totalPages` and `|p - page| <= 3`.
   */
  lemma PageNumbersSpec(page: int, totalPages: int)
    ensures var r := PageNumbers(page, totalPages);
      && (forall i :: 0 < i < |r| ==> r[i] == r[i - 1] + 1)
      && (forall i :: 0 <= i < |r| ==> 1 <= r[i] <= totalPages && page - WINDOW <= r[i] <= page + WINDOW)
      && (forall p :: 1 <= p <= totalPages && page - WINDOW <= p <= page + WINDOW ==> p in r)
  {
    var r := PageNumbers(page, totalPages);
    var start := if page - WINDOW > 1 then page - WINDOW else 1;
    forall p | 1 <= p <= totalPages && page - WINDOW <= p <= page + WINDOW
      ensures p in r
    {
      assert r[p - start] == p;
    }
  }

  /** `set_page`: a requested page below 1 becomes 1, one past the last page becomes the last. */
  function ClampPage(page: int, totalPages: int): (r: int)
    ensures totalPages >= 1 ==> 1 <= r <= totalPages
    ensures 1 <= page <= totalPages ==> r == page
    ensures totalPages >= 1 && page < 1 ==> r == 1
    ensures totalPages >= 1 && page > totalPages ==> r == totalPages
  {
    var p := if page < 1 then 1 else page;
    if p > totalPages then totalPages else p
  }

  /** The column a list is sorted by (`sort_by`, "" for none) and its direction (`sort_desc`). */
  datatype SortChoice = SortChoice(column: string, desc: bool)

  /** No column override, descending: the initial choice of every state. */
  const NO_SORT := SortChoice("", true)

  /**
   * `set_sort(clicked)`: the action column is ignored, the current column flips the
   * direction, any other column becomes the sort column, descending.
   */
  function Toggle(s: SortChoice, clicked: string, ignored: string): SortChoice {
    if clicked == ignored then s
    else if clicked == s.column then s.(desc := !s.desc)
    else SortChoice(clicked, true)
  }

  /** Which of the three cases `set_sort` takes. */
  lemma ToggleSpec(s: SortChoice, clicked: string, ignored: string)
    ensures clicked == ignored ==> Toggle(s, clicked, ignored) == s
    ensures clicked != ignored && clicked == s.column ==> Toggle(s, clicked, ignored) == SortChoice(s.column, !s.desc)
    ensures clicked != ignored && clicked != s.column ==> Toggle(s, clicked, ignored) == SortChoice(clicked, true)
  {
  }

  /** Clicking a column twice restores the choice before the first click, unless the first click changed columns. */
  lemma ToggleTwice(s: SortChoice, clicked: string, ignored: string)
    requires clicked == ignored || clicked == s.column
    ensures Toggle(Toggle(s, clicked, ignored), clicked, ignored) == s
  {
  }

  /** After any click the sorted column is the clicked one, unless the click was ignored. */
  lemma ToggleSelects(s: SortChoice, clicked: string, ignored: string)
    requires clicked != ignored
    ensures Toggle(s, clicked, ignored).column == clicked
    ensures clicked != s.column ==> Toggle(s, clicked, ignored).desc
  {
  }
}
