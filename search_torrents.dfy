/**
 * The torrent search page's state (ui/state/search_torrents.py): a name query
 * answered one page at a time, sorted locally by a column.
 */
module SearchTorrents {
  import opened Text
  import opened Listing
  import opened Columns

  class TorrentSearchState {
    var isLoading: bool
    var query: string
    /** `count`, the chosen label, and `_count`, its value. */
    var countLabel: string
    var count: int
    var page: int
    var total: int
    var torrents: seq<TorrentItem>
    var sort: SortChoice

    /** The page number never drops below 1. */
    ghost predicate Valid()
      reads this
    {
      page >= 1
    }

    /** The class defaults: not loading, no query, 50 per page, page 1, nothing found. */
    constructor ()
      ensures Valid()
      ensures !isLoading && query == "" && countLabel == COUNT_OPTIONS[2] && count == 50
      ensures page == 1 && total == 0 && torrents == [] && sort == NO_SORT
    {
      isLoading, query := false, "";
      countLabel, count := COUNT_OPTIONS[2], 50;
      page, total, torrents, sort := 1, 0, [], NO_SORT;
    }

    /** `total_pages`. */
    function Pages(): int
      reads this
    {
      TotalPages(total, count)
    }

    /** `page_numbers`. */
    function Window(): seq<int>
      reads this
    {
      PageNumbers(page, Pages())
    }

    /** `sorted_torrents`. */
    function Sorted(): seq<TorrentItem>
      reads this
    {
      SortedTorrents(torrents, sort)
    }

    /** `set_query`: a new query starts again at page 1. */
    method SetQuery(value: string)
      requires Valid()
      modifies this
      ensures Valid()
      ensures query == value && page == 1
      ensures isLoading == old(isLoading) && countLabel == old(countLabel) && count == old(count)
      ensures total == old(total) && torrents == old(torrents) && sort == old(sort)
    {
      query := value;
      page := 1;
    }

    /** `set_count`: the label and its parsed value; a new page size starts again at page 1. */
    method SetCount(text: string, value: int)
      requires Valid()
      modifies this
      ensures Valid()
      ensures countLabel == text && count == value && page == 1
      ensures isLoading == old(isLoading) && query == old(query)
      ensures total == old(total) && torrents == old(torrents) && sort == old(sort)
    {
      countLabel := text;
      count := value;
      page := 1;
    }

    /** `set_page`: the requested page clamped into `[1, total_pages]`. */
    method SetPage(p: int)
      requires Valid()
      modifies this`page
      ensures Valid()
      ensures page == ClampPage(p, Pages())
      ensures 1 <= page <= Pages()
    {
      TotalPagesSpec(total, count);
      var requested := p;
      if requested < 1 {
        requested := 1;
      }
      var tp := TotalPages(total, count);
      if requested > tp {
        requested := tp;
      }
      page := requested;
    }

    /** `next_page`: one page on, unless this is the last page. */
    method NextPage()
      requires Valid()
      modifies this`page
      ensures Valid()
      ensures page == if old(page) < Pages() then old(page) + 1 else old(page)
    {
      if page < TotalPages(total, count) {
        page := page + 1;
      }
    }

    /** `prev_page`: one page back, unless this is the first page. */
    method PrevPage()
      requires Valid()
      modifies this`page
      ensures Valid()
      ensures page == if old(page) > 1 then old(page) - 1 else old(page)
    {
      if page > 1 {
        page := page - 1;
      }
    }

    /**
     * `search` with `_search_torrents`: a blank query finds nothing and sets the total
     * to 0 without querying; otherwise the page of rows and the row count the queries
     * return are stored.
     */
    method Search(rows: seq<TorrentItem>, rowCount: int)
      requires Valid()
      modifies this
      ensures Valid()
      ensures !isLoading
      ensures Strip(query) == [] ==> torrents == [] && total == 0
      ensures Strip(query) != [] ==> torrents == rows && total == rowCount
      ensures query == old(query) && page == old(page) && count == old(count) && countLabel == old(countLabel) && sort == old(sort)
    {
      isLoading := true;
      var q := Strip(query);
      if q == [] {
        total := 0;
        torrents := [];
      } else {
        total := rowCount;
        torrents := rows;
      }
      isLoading := false;
    }

    /** `set_sort`: the "action" column is ignored. */
    method SetSort(column: string)
      modifies this`sort
      ensures sort == Toggle(old(sort), column, "action")
    {
      if column == "action" {
        return;
      }
      if column == sort.column {
        sort := sort.(desc := !sort.desc);
      } else {
        sort := SortChoice(column, true);
      }
    }

    /** `on_unmount`: no query, no results, page 1, no total. */
    method OnUnmount()
      modifies this
      ensures Valid()
      ensures !isLoading && query == "" && torrents == [] && page == 1 && total == 0
      ensures countLabel == old(countLabel) && count == old(count) && sort == old(sort)
    {
      isLoading := false;
      query := "";
      torrents := [];
      page := 1;
      total := 0;
    }
  }
}
