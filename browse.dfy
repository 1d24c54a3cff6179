/**
 * The browse page's state (ui/state/browse.py): one page of torrents loaded in a
 * chosen order, filtered locally by a query and sorted locally by a column.
 */
module Browse {
  import opened Text
  import opened Listing
  import opened Columns

  /** The listing modes (`Mode`), in the order of `MODE_OPTIONS`. */
  datatype Mode = Newest | MostDownloaded | MostViewed | Random {
    function Label(): string {
      match this
      case Newest => "Newest"
      case MostDownloaded => "Most Downloaded"
      case MostViewed => "Most Viewed"
      case Random => "Random"
    }
  }

  datatype Order = Descending | Ascending

  /** A loaded torrent is kept by the query `q` when its lower-cased name contains `q`. */
  predicate NameMatches(t: TorrentItem, q: string) {
    Contains(Lower(t.row.name), q)
  }

  /** The list comprehension keeping the torrents whose name contains `q`, in their order. */
  function Keep(items: seq<TorrentItem>, q: string): seq<TorrentItem>
    decreases |items|
  {
    if items == [] then []
    else (if NameMatches(items[0], q) then [items[0]] else []) + Keep(items[1..], q)
  }

  /** Each torrent occurs in the kept list as often as in the loaded page if its name matches, else never. */
  lemma {:induction false} KeepCounts(items: seq<TorrentItem>, q: string, t: TorrentItem)
    ensures multiset(Keep(items, q))[t] == if NameMatches(t, q) then multiset(items)[t] else 0
    decreases |items|
  {
    if items != [] {
      KeepCounts(items[1..], q, t);
      assert items == [items[0]] + items[1..];
    }
  }

  /** Filtering a page split in two filters each part and keeps them in that order. */
  lemma {:induction false} KeepAppend(a: seq<TorrentItem>, b: seq<TorrentItem>, q: string)
    ensures Keep(a + b, q) == Keep(a, q) + Keep(b, q)
    decreases |a|
  {
    if a == [] {
      assert a + b == b;
    } else {
      var head := if NameMatches(a[0], q) then [a[0]] else [];
      assert (a + b)[0] == a[0] && (a + b)[1..] == a[1..] + b;
      assert Keep(a + b, q) == head + Keep(a[1..] + b, q);
      KeepAppend(a[1..], b, q);
      assert Keep(a, q) == head + Keep(a[1..], q);
    }
  }

  /** Filtering keeps every matching torrent, in the loaded order, and drops the rest. */
  lemma {:induction false} KeepAll(items: seq<TorrentItem>, q: string)
    ensures (forall i :: 0 <= i < |items| ==> NameMatches(items[i], q)) ==> Keep(items, q) == items
    ensures (forall i :: 0 <= i < |items| ==> !NameMatches(items[i], q)) ==> Keep(items, q) == []
    decreases |items|
  {
    if items != [] {
      KeepAll(items[1..], q);
    }
  }

  /** `filtered_torrents`: an empty query keeps every torrent; the result is then column-sorted. */
  function FilteredTorrents(items: seq<TorrentItem>, query: string, choice: SortChoice): seq<TorrentItem> {
    var kept := if query == "" then items else Keep(items, Lower(query));
    SortedTorrents(kept, choice)
  }

  /**
   * `filtered_torrents` holds each loaded torrent whose lower-cased name contains the
   * lower-cased query (every one for an empty query) as often as it was loaded, and no
   * other; a blank sort column keeps the loaded order, so the page shows the
   * matching torrents in the order they were loaded (KeepAppend).
   */
  lemma FilteredTorrentsSpec(items: seq<TorrentItem>, query: string, choice: SortChoice, t: TorrentItem)
    ensures var r := FilteredTorrents(items, query, choice);
      multiset(r)[t] == if query == "" || NameMatches(t, Lower(query)) then multiset(items)[t] else 0
    ensures Strip(choice.column) == [] && query == "" ==> FilteredTorrents(items, query, choice) == items
    ensures Strip(choice.column) == [] && query != "" ==> FilteredTorrents(items, query, choice) == Keep(items, Lower(query))
  {
    var kept := if query == "" then items else Keep(items, Lower(query));
    SortedTorrentsSpec(kept, choice);
    if query != "" {
      KeepCounts(items, Lower(query), t);
    }
  }

  class BrowseState {
    var isLoading: bool
    var mode: Mode
    var order: Order
    /** `count`, the chosen label, and `_count`, its value. */
    var countLabel: string
    var count: int
    var query: string
    var page: int
    var total: int
    var torrents: seq<TorrentItem>
    var sort: SortChoice

    /** The page number never drops below 1. */
    ghost predicate Valid()
      reads this
    {
      page >= 1
    }

    /** The class defaults: first mode, first order, first count, page 1, nothing loaded. */
    constructor ()
      ensures Valid()
      ensures isLoading && mode == Newest && order == Descending
      ensures countLabel == COUNT_OPTIONS[0] && count == 10
      ensures query == "" && page == 1 && total == 0 && torrents == [] && sort == NO_SORT
    {
      isLoading, mode, order := true, Newest, Descending;
      countLabel, count := COUNT_OPTIONS[0], 10;
      query, page, total, torrents, sort := "", 1, 0, [], NO_SORT;
    }

    /** `total_pages`. */
    function Pages(): int
      reads this
    {
      TotalPages(total, count)
    }

    /** `page_numbers`. */
    function Window(): seq<int>
      reads this
    {
      PageNumbers(page, Pages())
    }

    /** `filtered_torrents`. */
    function Shown(): seq<TorrentItem>
      reads this
    {
      FilteredTorrents(torrents, query, sort)
    }

    /** `_load_torrents`, with the page of rows and the row count the queries return as inputs. */
    method Load(rows: seq<TorrentItem>, rowCount: int)
      requires Valid()
      modifies this
      ensures Valid()
      ensures torrents == rows && total == rowCount && !isLoading
      ensures page == old(page) && count == old(count) && query == old(query) && sort == old(sort)
      ensures mode == old(mode) && order == old(order) && countLabel == old(countLabel)
    {
      isLoading := true;
      torrents := rows;
      total := rowCount;
      isLoading := false;
    }

    /** `set_mode`: a new listing mode starts again at page 1. */
    method SetMode(m: Mode)
      requires Valid()
      modifies this
      ensures Valid()
      ensures mode == m && page == 1
      ensures isLoading == old(isLoading) && order == old(order) && countLabel == old(countLabel) && count == old(count)
      ensures query == old(query) && total == old(total) && torrents == old(torrents) && sort == old(sort)
    {
      mode := m;
      page := 1;
    }

    /** `set_count`: the label and its parsed value; a new page size starts again at page 1. */
    method SetCount(text: string, value: int)
      requires Valid()
      modifies this
      ensures Valid()
      ensures countLabel == text && count == value && page == 1
      ensures isLoading == old(isLoading) && mode == old(mode) && order == old(order)
      ensures query == old(query) && total == old(total) && torrents == old(torrents) && sort == old(sort)
    {
      countLabel := text;
      count := value;
      page := 1;
    }

    /** `set_query`: only the local filter changes; nothing is reloaded. */
    method SetQuery(q: string)
      requires Valid()
      modifies this
      ensures Valid()
      ensures query == q
      ensures isLoading == old(isLoading) && mode == old(mode) && order == old(order) && countLabel == old(countLabel)
      ensures count == old(count) && page == old(page) && total == old(total) && torrents == old(torrents) && sort == old(sort)
    {
      query := q;
    }

    /** `set_page`: the requested page clamped into `[1, total_pages]`. */
    method SetPage(p: int)
      requires Valid()
      modifies this`page
      ensures Valid()
      ensures page == ClampPage(p, Pages())
      ensures 1 <= page <= Pages()
    {
      TotalPagesSpec(total, count);
      var requested := p;
      if requested < 1 {
        requested := 1;
      }
      var tp := TotalPages(total, count);
      if requested > tp {
        requested := tp;
      }
      page := requested;
    }

    /** `next_page`: one page on, unless this is the last page. */
    method NextPage()
      requires Valid()
      modifies this`page
      ensures Valid()
      ensures page == if old(page) < Pages() then old(page) + 1 else old(page)
    {
      if page < TotalPages(total, count) {
        page := page + 1;
      }
    }

    /** `prev_page`: one page back, unless this is the first page. */
    method PrevPage()
      requires Valid()
      modifies this`page
      ensures Valid()
      ensures page == if old(page) > 1 then old(page) - 1 else old(page)
    {
      if page > 1 {
        page := page - 1;
      }
    }

    /** `set_sort`: the "action" column is ignored. */
    method SetSort(column: string)
      modifies this`sort
      ensures sort == Toggle(old(sort), column, "action")
    {
      if column == "action" {
        return;
      }
      if column == sort.column {
        sort := sort.(desc := !sort.desc);
      } else {
        sort := SortChoice(column, true);
      }
    }

    /** `on_unmount`: back to loading, with no query, no rows, page 1 and no total. */
    method OnUnmount()
      modifies this
      ensures Valid()
      ensures isLoading && query == "" && torrents == [] && page == 1 && total == 0
      ensures mode == old(mode) && order == old(order) && countLabel == old(countLabel) && count == old(count) && sort == old(sort)
    {
      isLoading := true;
      query := "";
      torrents := [];
      page := 1;
      total := 0;
    }
  }
}
