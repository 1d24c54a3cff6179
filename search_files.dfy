/**
 * The file search page's state (ui/state/search_files.py): a path query and an
 * extension query answered one page at a time, sorted locally by a column, and the
 * jump from a file to the torrents that contain it.
 */
module SearchFiles {
  import opened Wrappers
  import opened Text
  import opened Schema
  import opened Listing
  import opened Columns
  import opened TorrentView

  /** The torrents linked to file `fid` (`TorrentFile.torrent`), in link-row order. */
  function Linked(links: seq<Link>, fid: nat): (r: seq<nat>)
    ensures |r| <= |links|
    ensures forall tid :: tid in r <==> (tid, fid) in links
    decreases |links|
  {
    if links == [] then []
    else
      var last := links[|links| - 1];
      assert links == links[..|links| - 1] + [last];
      Linked(links[..|links| - 1], fid) + (if last.1 == fid then [last.0] else [])
  }

  /** No torrent occurs twice. */
  predicate Distinct(r: seq<nat>) {
    forall i, j :: 0 <= i < j < |r| ==> r[i] != r[j]
  }

  /**
   * With no link row stored twice (as `Database.Valid` keeps), a file's linked
   * torrents are pairwise distinct, so `|Linked(..)| > 1` means several torrents.
   */
  lemma {:induction false} LinkedDistinct(links: seq<Link>, fid: nat)
    requires NoDup(links)
    ensures Distinct(Linked(links, fid))
    decreases |links|
  {
    if links != [] {
      var n := |links| - 1;
      var init, last := links[..n], links[n];
      assert NoDup(init) by {
        forall i, j | 0 <= i < j < |init| ensures init[i] != init[j] {
          assert init[i] == links[i] && init[j] == links[j];
        }
      }
      LinkedDistinct(init, fid);
      var a := Linked(init, fid);
      assert links == init + [last];
      assert Linked(links, fid) == a + (if last.1 == fid then [last.0] else []);
      if last.1 == fid {
        var r := a + [last.0];
        forall i, j | 0 <= i < j < |r| ensures r[i] != r[j] {
          if j < |a| {
            assert r[i] == a[i] && r[j] == a[j];
          } else {
            assert r[i] == a[i] && a[i] in a && r[j] == last.0;
          }
        }
      }
    }
  }

  /** The redirect target `/file/{fid}/torrents`. */
  function FileTorrentsPath(fid: nat): string {
    "/file/" + DecimalString(fid) + "/torrents"
  }

  /** A torrent page and a file's torrent list are never the same target. */
  lemma TargetsDiffer(tid: nat, fid: nat)
    ensures TorrentPath(tid) != FileTorrentsPath(fid)
  {
    assert TorrentPath(tid)[1] == 't';
    assert FileTorrentsPath(fid)[1] == 'f';
  }

  /**
   * `open_related`: a missing file does nothing; a file in exactly one torrent counts a
   * view on it (when it still exists) and goes to its page; a file in several torrents
   * goes to their list without writing; a file in none does nothing.
   */
  method OpenRelated(db: Database, fid: nat) returns (redirect: Option<string>)
    requires db.Valid()
    modifies db`torrents
    ensures db.Valid()
    ensures var linked := Linked(db.fileLinks, fid);
      if fid in db.files && |linked| == 1 then
        && redirect == Some(TorrentPath(linked[0]))
        && (linked[0] in old(db.torrents) ==> db.torrents == WithView(old(db.torrents), linked[0]))
        && (linked[0] !in old(db.torrents) ==> db.torrents == old(db.torrents))
      else
        && db.torrents == old(db.torrents)
        && redirect == (if fid in db.files && |linked| > 1 then Some(FileTorrentsPath(fid)) else None)
  {
    if fid !in db.files {
      return None;
    }
    var linked := Linked(db.fileLinks, fid);
    if |linked| == 1 {
      var tid := linked[0];
      if tid in db.torrents {
        var t := db.torrents[tid];
        db.torrents := db.torrents[tid := t.(views := t.views + 1)];
        assert db.torrents.Keys == old(db.torrents).Keys;
      }
      redirect := Some("/t/" + DecimalString(tid));
    } else if |linked| > 1 {
      redirect := Some("/file/" + DecimalString(fid) + "/torrents");
    } else {
      redirect := None;
    }
  }

  class FileSearchState {
    var isLoading: bool
    var nameQuery: string
    var extQuery: string
    /** `count`, the chosen label, and `_count`, its value. */
    var countLabel: string
    var count: int
    var page: int
    var total: int
    var files: seq<FileItem>
    var sort: SortChoice

    /** The page number never drops below 1. */
    ghost predicate Valid()
      reads this
    {
      page >= 1
    }

    /** The class defaults: not loading, no queries, 50 per page, page 1, nothing found. */
    constructor ()
      ensures Valid()
      ensures !isLoading && nameQuery == "" && extQuery == "" && countLabel == COUNT_OPTIONS[2] && count == 50
      ensures page == 1 && total == 0 && files == [] && sort == NO_SORT
    {
      isLoading, nameQuery, extQuery := false, "", "";
      countLabel, count := COUNT_OPTIONS[2], 50;
      page, total, files, sort := 1, 0, [], NO_SORT;
    }

    /** `total_pages`. */
    function Pages(): int
      reads this
    {
      TotalPages(total, count)
    }

    /** `page_numbers`. */
    function Window(): seq<int>
      reads this
    {
      PageNumbers(page, Pages())
    }

    /** `sorted_files`. */
    function Sorted(): seq<FileItem>
      reads this
    {
      SortedFiles(files, sort)
    }

    /** `set_name_query`: a new query starts again at page 1. */
    method SetNameQuery(value: string)
      requires Valid()
      modifies this
      ensures Valid()
      ensures nameQuery == value && page == 1
      ensures isLoading == old(isLoading) && extQuery == old(extQuery) && countLabel == old(countLabel) && count == old(count)
      ensures total == old(total) && files == old(files) && sort == old(sort)
    {
      nameQuery := value;
      page := 1;
    }

    /**
     * `set_ext_query`: `None` reads as the empty string, every leading "." is dropped,
     * and the search starts again at page 1.
     */
    method SetExtQuery(value: Option<string>)
      requires Valid()
      modifies this
      ensures Valid()
      ensures extQuery == StripLeadingDots(value.GetOr("")) && page == 1
      ensures extQuery == [] || extQuery[0] != '.'
      ensures isLoading == old(isLoading) && nameQuery == old(nameQuery) && countLabel == old(countLabel) && count == old(count)
      ensures total == old(total) && files == old(files) && sort == old(sort)
    {
      StripLeadingDotsFirst(value.GetOr(""));
      extQuery := StripLeadingDots(value.GetOr(""));
      page := 1;
    }

    /** `set_count`: the label and its parsed value; a new page size starts again at page 1. */
    method SetCount(text: string, value: int)
      requires Valid()
      modifies this
      ensures Valid()
      ensures countLabel == text && count == value && page == 1
      ensures isLoading == old(isLoading) && nameQuery == old(nameQuery) && extQuery == old(extQuery)
      ensures total == old(total) && files == old(files) && sort == old(sort)
    {
      countLabel := text;
      count := value;
      page := 1;
    }

    /** `set_page`: the requested page clamped into `[1, total_pages]`. */
    method SetPage(p: int)
      requires Valid()
      modifies this`page
      ensures Valid()
      ensures page == ClampPage(p, Pages())
      ensures 1 <= page <= Pages()
    {
      TotalPagesSpec(total, count);
      var requested := p;
      if requested < 1 {
        requested := 1;
      }
      var tp := TotalPages(total, count);
      if requested > tp {
        requested := tp;
      }
      page := requested;
    }

    /** `next_page`: one page on, unless this is the last page. */
    method NextPage()
      requires Valid()
      modifies this`page
      ensures Valid()
      ensures page == if old(page) < Pages() then old(page) + 1 else old(page)
    {
      if page < TotalPages(total, count) {
        page := page + 1;
      }
    }

    /** `prev_page`: one page back, unless this is the first page. */
    method PrevPage()
      requires Valid()
      modifies this`page
      ensures Valid()
      ensures page == if old(page) > 1 then old(page) - 1 else old(page)
    {
      if page > 1 {
        page := page - 1;
      }
    }

    /**
     * `search` with `_search_files`: with both queries blank nothing is found and the
     * total is 0 without querying; otherwise the page of rows and the row count the
     * queries return are stored.
     */
    method Search(rows: seq<FileItem>, rowCount: int)
      requires Valid()
      modifies this
      ensures Valid()
      ensures !isLoading
      ensures Strip(nameQuery) == [] && Strip(extQuery) == [] ==> files == [] && total == 0
      ensures Strip(nameQuery) != [] || Strip(extQuery) != [] ==> files == rows && total == rowCount
      ensures nameQuery == old(nameQuery) && extQuery == old(extQuery) && page == old(page)
      ensures count == old(count) && countLabel == old(countLabel) && sort == old(sort)
    {
      isLoading := true;
      var nameQ := Strip(nameQuery);
      var extQ := Strip(extQuery);
      if nameQ == [] && extQ == [] {
        total := 0;
        files := [];
      } else {
        total := rowCount;
        files := rows;
      }
      isLoading := false;
    }

    /** `set_sort`: the "actions" column is ignored. */
    method SetSort(column: string)
      modifies this`sort
      ensures sort == Toggle(old(sort), column, "actions")
    {
      if column == "actions" {
        return;
      }
      if column == sort.column {
        sort := sort.(desc := !sort.desc);
      } else {
        sort := SortChoice(column, true);
      }
    }

    /** `on_unmount`: no queries, no results, page 1, no total. */
    method OnUnmount()
      modifies this
      ensures Valid()
      ensures !isLoading && nameQuery == "" && extQuery == "" && files == [] && page == 1 && total == 0
      ensures countLabel == old(countLabel) && count == old(count) && sort == old(sort)
    {
      isLoading := false;
      nameQuery := "";
      extQuery := "";
      files := [];
      page := 1;
      total := 0;
    }
  }
}
