/**
 * The client-side column sort of the torrent and file tables (`sorted_torrents`,
 * `sorted_files`, and the sorting half of `filtered_torrents`).
 */
module Columns {
  import opened Wrappers
  import opened Text
  import opened Schema
  import opened Sorting
  import opened Listing

  /** A loaded torrent with its eager-loaded files (`selectinload(Torrent.files)`). */
  datatype TorrentItem = TorrentItem(id: nat, row: Torrent, files: seq<TorrentFile>)

  /** A loaded file row. */
  datatype FileItem = FileItem(id: nat, row: TorrentFile)

  /** The torrent table's `key_func` for column `col`; an unknown column gives every torrent 0. */
  function TorrentKey(col: string, t: TorrentItem): Key {
    if col == "name" then Str(Lower(t.row.name))
    else if col == "size" then Num(t.row.size)
    else if col == "files" then Num(|t.files|)
    else if col == "seen" then Num(t.row.seenCount)
    else if col == "views" then Num(t.row.views)
    else if col == "downloads" then Num(t.row.downloads)
    else if col == "created_at" then Num(t.row.createdAt)
    else if col == "updated_at" then Num(t.row.updatedAt.GetOr(0))
    else Num(0)
  }

  /** The file table's `key_func` for column `col`; an unknown column gives every file 0. */
  function FileKey(col: string, f: FileItem): Key {
    if col == "path" then Str(Lower(f.row.path))
    else if col == "size" then Num(f.row.size)
    else Num(0)
  }

  function TorrentColumn(col: string): TorrentItem -> Key {
    t => TorrentKey(col, t)
  }

  function FileColumn(col: string): FileItem -> Key {
    f => FileKey(col, f)
  }

  predicate KnownTorrentColumn(col: string) {
    col in ["name", "size", "files", "seen", "views", "downloads", "created_at", "updated_at"]
  }

  predicate KnownFileColumn(col: string) {
    col in ["path", "size"]
  }

  /** `sorted_torrents`: no sorting for a blank column, otherwise a stable sort on the column's key. */
  function SortedTorrents(items: seq<TorrentItem>, choice: SortChoice): seq<TorrentItem> {
    var col := Strip(choice.column);
    if col == [] then items else SortBy(items, TorrentColumn(col), choice.desc)
  }

  /** `sorted_files`: no sorting for a blank column, otherwise a stable sort on the column's key. */
  function SortedFiles(items: seq<FileItem>, choice: SortChoice): seq<FileItem> {
    var col := Strip(choice.column);
    if col == [] then items else SortBy(items, FileColumn(col), choice.desc)
  }

  /**
   * `sorted_torrents` returns the same torrents; with a non-blank column they are in
   * key order (descending when `desc`) and torrents with equal keys keep their order.
   */
  lemma SortedTorrentsSpec(items: seq<TorrentItem>, choice: SortChoice)
    ensures var r := SortedTorrents(items, choice);
      && multiset(r) == multiset(items)
      && (Strip(choice.column) == [] ==> r == items)
      && (Strip(choice.column) != [] ==>
            var key := TorrentColumn(Strip(choice.column));
            && Ordered(r, key, choice.desc)
            && (forall k :: WithKey(r, key, k) == WithKey(items, key, k)))
  {
    var col := Strip(choice.column);
    if col != [] {
      SortPermutes(items, TorrentColumn(col), choice.desc);
      SortOrdered(items, TorrentColumn(col), choice.desc);
      forall k {
        SortStable(items, TorrentColumn(col), choice.desc, k);
      }
    }
  }

  /** `sorted_files` returns the same files, in key order and stably, as `sorted_torrents` does. */
  lemma SortedFilesSpec(items: seq<FileItem>, choice: SortChoice)
    ensures var r := SortedFiles(items, choice);
      && multiset(r) == multiset(items)
      && (Strip(choice.column) == [] ==> r == items)
      && (Strip(choice.column) != [] ==>
            var key := FileColumn(Strip(choice.column));
            && Ordered(r, key, choice.desc)
            && (forall k :: WithKey(r, key, k) == WithKey(items, key, k)))
  {
    var col := Strip(choice.column);
    if col != [] {
      SortPermutes(items, FileColumn(col), choice.desc);
      SortOrdered(items, FileColumn(col), choice.desc);
      forall k {
        SortStable(items, FileColumn(col), choice.desc, k);
      }
    }
  }

  /** An unrecognised column keys every torrent 0, so the order is kept. */
  lemma UnknownTorrentColumnKeepsOrder(items: seq<TorrentItem>, choice: SortChoice)
    requires !KnownTorrentColumn(Strip(choice.column))
    ensures SortedTorrents(items, choice) == items
  {
    var col := Strip(choice.column);
    if col != [] {
      forall i | 0 <= i < |items|
        ensures TorrentColumn(col)(items[i]) == Num(0)
      {
        UnknownTorrentKey(col, items[i]);
      }
      SortSameKey(items, TorrentColumn(col), choice.desc, Num(0));
    }
  }

  lemma UnknownTorrentKey(col: string, t: TorrentItem)
    requires !KnownTorrentColumn(col)
    ensures TorrentKey(col, t) == Num(0)
  {
  }

  /** An unrecognised column keys every file 0, so the order is kept. */
  lemma UnknownFileColumnKeepsOrder(items: seq<FileItem>, choice: SortChoice)
    requires !KnownFileColumn(Strip(choice.column))
    ensures SortedFiles(items, choice) == items
  {
    var col := Strip(choice.column);
    if col != [] {
      forall i | 0 <= i < |items|
        ensures FileColumn(col)(items[i]) == Num(0)
      {
        UnknownFileKey(col, items[i]);
      }
      SortSameKey(items, FileColumn(col), choice.desc, Num(0));
    }
  }

  lemma UnknownFileKey(col: string, f: FileItem)
    requires !KnownFileColumn(col)
    ensures FileKey(col, f) == Num(0)
  {
  }
}
