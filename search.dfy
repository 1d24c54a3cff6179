/**
 * The combined search page's state (ui/state/search.py): a torrent query and a file
 * query answered together, each result list sorted locally by its own column.
 */
module Search {
  import opened Text
  import opened Listing
  import opened Columns

  /** The extension term of `_search_files`: whitespace stripped, then every leading ".". */
  function ExtTerm(extQuery: string): (r: string)
    ensures r == [] || r[0] != '.'
  {
    StripLeadingDotsFirst(Strip(extQuery));
    StripLeadingDots(Strip(extQuery))
  }

  class SearchState {
    var isLoading: bool
    var torrentQuery: string
    var fileNameQuery: string
    var fileExtQuery: string
    /** `count`, the chosen label, and `_count`, its value. */
    var countLabel: string
    var count: int
    var torrents: seq<TorrentItem>
    var files: seq<FileItem>
    var torrentSort: SortChoice
    var fileSort: SortChoice

    /** The class defaults: not loading, no queries, 50 results, nothing found. */
    constructor ()
      ensures !isLoading && torrentQuery == "" && fileNameQuery == "" && fileExtQuery == ""
      ensures countLabel == COUNT_OPTIONS[2] && count == 50
      ensures torrents == [] && files == [] && torrentSort == NO_SORT && fileSort == NO_SORT
    {
      isLoading := false;
      torrentQuery, fileNameQuery, fileExtQuery := "", "", "";
      countLabel, count := COUNT_OPTIONS[2], 50;
      torrents, files := [], [];
      torrentSort, fileSort := NO_SORT, NO_SORT;
    }

    /** `sorted_torrents`. */
    function SortedTorrentList(): seq<TorrentItem>
      reads this
    {
      SortedTorrents(torrents, torrentSort)
    }

    /** `sorted_files`. */
    function SortedFileList(): seq<FileItem>
      reads this
    {
      SortedFiles(files, fileSort)
    }

    /** `set_torrent_query`. */
    method SetTorrentQuery(value: string)
      modifies this`torrentQuery
      ensures torrentQuery == value
    {
      torrentQuery := value;
    }

    /** `set_file_name_query`. */
    method SetFileNameQuery(value: string)
      modifies this`fileNameQuery
      ensures fileNameQuery == value
    {
      fileNameQuery := value;
    }

    /** `set_file_ext_query`: stored as typed; it is normalised when searching. */
    method SetFileExtQuery(value: string)
      modifies this`fileExtQuery
      ensures fileExtQuery == value
    {
      fileExtQuery := value;
    }

    /** `set_count`: the label and its parsed value. */
    method SetCount(text: string, value: int)
      modifies this`countLabel, this`count
      ensures countLabel == text && count == value
    {
      countLabel := text;
      count := value;
    }

    /**
     * `search`: a blank torrent query finds no torrents, and a blank name query with a
     * blank extension term finds no files, without querying; otherwise the rows the
     * queries return are stored.
     */
    method Search(torrentRows: seq<TorrentItem>, fileRows: seq<FileItem>)
      modifies this`isLoading, this`torrents, this`files
      ensures !isLoading
      ensures torrents == if Strip(torrentQuery) == [] then [] else torrentRows
      ensures files == if Strip(fileNameQuery) == [] && ExtTerm(fileExtQuery) == [] then [] else fileRows
    {
      isLoading := true;
      var q := Strip(torrentQuery);
      if q == [] {
        torrents := [];
      } else {
        torrents := torrentRows;
      }
      var nameQ := Strip(fileNameQuery);
      var extQ := ExtTerm(fileExtQuery);
      if nameQ == [] && extQ == [] {
        files := [];
      } else {
        files := fileRows;
      }
      isLoading := false;
    }

    /** `set_torrent_sort`: the "action" column is ignored. */
    method SetTorrentSort(column: string)
      modifies this`torrentSort
      ensures torrentSort == Toggle(old(torrentSort), column, "action")
    {
      if column == "action" {
        return;
      }
      if column == torrentSort.column {
        torrentSort := torrentSort.(desc := !torrentSort.desc);
      } else {
        torrentSort := SortChoice(column, true);
      }
    }

    /** `set_file_sort`: the "actions" column is ignored. */
    method SetFileSort(column: string)
      modifies this`fileSort
      ensures fileSort == Toggle(old(fileSort), column, "actions")
    {
      if column == "actions" {
        return;
      }
      if column == fileSort.column {
        fileSort := fileSort.(desc := !fileSort.desc);
      } else {
        fileSort := SortChoice(column, true);
      }
    }

    /** `on_unmount`: all three queries and both result lists cleared, not loading. */
    method OnUnmount()
      modifies this
      ensures !isLoading && torrentQuery == "" && fileNameQuery == "" && fileExtQuery == ""
      ensures torrents == [] && files == []
      ensures countLabel == old(countLabel) && count == old(count)
      ensures torrentSort == old(torrentSort) && fileSort == old(fileSort)
    {
      isLoading := false;
      torrentQuery := "";
      fileNameQuery := "";
      fileExtQuery := "";
      torrents := [];
      files := [];
    }
  }
}
