/**
 * The persisted entities and the database that holds them (db/model.py).
 * Tables are keyed by their integer primary key; the two link tables are
 * kept as sequences of rows because the schema puts no uniqueness constraint
 * on them. Whatever the callers keep unique is stated in `Database.Valid`.
 */
module Schema {
  import opened Wrappers

  /** Timestamps are opaque ordinals counted from `datetime.min`, which is 0. */
  type Timestamp = nat

  datatype Torrent = Torrent(
    name: string,
    infoHash: string,
    size: int,
    views: int,
    downloads: int,
    createdAt: Timestamp,
    updatedAt: Option<Timestamp>,
    seenCount: int)

  datatype TorrentFile = TorrentFile(path: string, size: int)

  datatype Crawler = Crawler(
    name: string,
    token: string,
    createdAt: Timestamp,
    failedAuthenticationCount: int)

  /** A link-table row: (torrent id, file id) in FileTorrentLinkModel, (crawler id, torrent id) in CrawlerTorrentLinkModel. */
  type Link = (nat, nat)

  /** A Torrent row as the constructor creates it: the column defaults apply. */
  function NewTorrent(name: string, infoHash: string, size: int, now: Timestamp): (t: Torrent)
    ensures t.name == name && t.infoHash == infoHash && t.size == size
    ensures t.views == 0 && t.downloads == 0 && t.seenCount == 1
    ensures t.createdAt == now && t.updatedAt == None
  {
    Torrent(name, infoHash, size, 0, 0, now, None, 1)
  }

  /** A Crawler row as the constructor creates it: no failed authentication yet. */
  function NewCrawler(name: string, token: string, now: Timestamp): (c: Crawler)
    ensures c.name == name && c.token == token && c.createdAt == now
    ensures c.failedAuthenticationCount == 0
  {
    Crawler(name, token, now, 0)
  }

  /** `TorrentFile.path` carries a unique constraint. */
  ghost predicate UniquePaths(files: map<nat, TorrentFile>) {
    forall a, b :: a in files && b in files && files[a].path == files[b].path ==> a == b
  }

  /** `Torrent.info_hash` is unique only because callers look up before they create. */
  ghost predicate UniqueHashes(torrents: map<nat, Torrent>) {
    forall a, b :: a in torrents && b in torrents && torrents[a].infoHash == torrents[b].infoHash ==> a == b
  }

  /** `Crawler.name` is unique only because callers look up before they create. */
  ghost predicate UniqueNames(crawlers: map<nat, Crawler>) {
    forall a, b :: a in crawlers && b in crawlers && crawlers[a].name == crawlers[b].name ==> a == b
  }

  /** `select(Crawler).where(Crawler.name == n)`: a crawler called `n`, if one is stored. */
  ghost function CrawlerNamed(crawlers: map<nat, Crawler>, n: string): (r: Option<nat>)
    ensures r.Some? ==> r.value in crawlers && crawlers[r.value].name == n
    ensures r.None? ==> forall id :: id in crawlers ==> crawlers[id].name != n
  {
    if exists id :: id in crawlers && crawlers[id].name == n then
      var id :| id in crawlers && crawlers[id].name == n; Some(id)
    else None
  }

  /** The paths of a files table. */
  ghost function Paths(files: map<nat, TorrentFile>): set<string> {
    set id | id in files :: files[id].path
  }

  /** No link row occurs twice. */
  ghost predicate NoDup(links: seq<Link>) {
    forall i, j :: 0 <= i < j < |links| ==> links[i] != links[j]
  }

  class Database {
    /** The Counts table: counter name to value (name is the primary key). */
    var counts: map<string, int>
    var torrents: map<nat, Torrent>
    var files: map<nat, TorrentFile>
    var crawlers: map<nat, Crawler>
    /** FileTorrentLinkModel rows, (torrent id, file id). */
    var fileLinks: seq<Link>
    /** CrawlerTorrentLinkModel rows, (crawler id, torrent id). */
    var crawlerLinks: seq<Link>
    /** The next value of each auto-increment primary key. */
    var nextTorrentId: nat
    var nextFileId: nat
    var nextCrawlerId: nat

    ghost predicate Valid()
      reads this`torrents, this`files, this`crawlers, this`fileLinks, this`crawlerLinks
      reads this`nextTorrentId, this`nextFileId, this`nextCrawlerId
    {
      && (forall id :: id in torrents ==> id < nextTorrentId)
      && (forall id :: id in files ==> id < nextFileId)
      && (forall id :: id in crawlers ==> id < nextCrawlerId)
      && UniquePaths(files)
      && UniqueHashes(torrents)
      && UniqueNames(crawlers)
      && (forall k :: 0 <= k < |fileLinks| ==> fileLinks[k].0 in torrents && fileLinks[k].1 in files)
      && (forall k :: 0 <= k < |crawlerLinks| ==> crawlerLinks[k].0 in crawlers && crawlerLinks[k].1 in torrents)
      && NoDup(fileLinks)
      && NoDup(crawlerLinks)
    }

    constructor ()
      ensures Valid()
      ensures counts == map[] && torrents == map[] && files == map[] && crawlers == map[]
      ensures fileLinks == [] && crawlerLinks == []
    {
      counts, torrents, files, crawlers := map[], map[], map[], map[];
      fileLinks, crawlerLinks := [], [];
      nextTorrentId, nextFileId, nextCrawlerId := 0, 0, 0;
    }

    /** The paths of all stored files. */
    ghost function PathSet(): set<string>
      reads this`files
    {
      Paths(files)
    }

    /** `select(Torrent).where(Torrent.info_hash == h).one_or_none()`. */
    ghost function TorrentWithHash(h: string): (r: Option<nat>)
      reads this`torrents
      ensures r.Some? ==> r.value in torrents && torrents[r.value].infoHash == h
      ensures r.None? ==> forall id :: id in torrents ==> torrents[id].infoHash != h
    {
      if exists id :: id in torrents && torrents[id].infoHash == h then
        var id :| id in torrents && torrents[id].infoHash == h; Some(id)
      else None
    }

    method FindTorrent(h: string) returns (r: Option<nat>)
      requires Valid()
      ensures r == TorrentWithHash(h)
    {
      if exists id :: id in torrents && torrents[id].infoHash == h {
        var id :| id in torrents && torrents[id].infoHash == h;
        r := Some(id);
      } else {
        r := None;
      }
    }

    method FindCrawler(n: string) returns (r: Option<nat>)
      requires Valid()
      ensures r == CrawlerNamed(crawlers, n)
    {
      if exists id :: id in crawlers && crawlers[id].name == n {
        var id :| id in crawlers && crawlers[id].name == n;
        r := Some(id);
      } else {
        r := None;
      }
    }

    /** The file row with path `p`, if any (the bulk lookup `TorrentFile.path.in_(...)`). */
    method FindFile(p: string) returns (r: Option<nat>)
      requires Valid()
      ensures r.Some? ==> r.value in files && files[r.value].path == p
      ensures r.None? <==> p !in PathSet()
    {
      if exists id :: id in files && files[id].path == p {
        var id :| id in files && files[id].path == p;
        r := Some(id);
      } else {
        r := None;
      }
    }
  }
}
