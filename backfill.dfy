/**
 * Recomputing the Counts table from the stored rows (utils/backfill_counts.py).
 */
module Backfill {
  import opened Schema
  import opened CountDb

  /** `func.sum(Torrent.size)` over the rows with ids in `ids`; an empty sum is 0. */
  ghost function TotalSize(torrents: map<nat, Torrent>, ids: set<nat>): int
    requires ids <= torrents.Keys
    decreases ids
  {
    if ids == {} then 0
    else
      var id :| id in ids;
      torrents[id].size + TotalSize(torrents, ids - {id})
  }

  /** The sum does not depend on the order in which the rows are visited. */
  lemma {:induction false} TotalSizeRemove(torrents: map<nat, Torrent>, ids: set<nat>, id: nat)
    requires ids <= torrents.Keys && id in ids
    ensures TotalSize(torrents, ids) == torrents[id].size + TotalSize(torrents, ids - {id})
    decreases ids
  {
    var other :| other in ids && TotalSize(torrents, ids) == torrents[other].size + TotalSize(torrents, ids - {other});
    if other != id {
      TotalSizeRemove(torrents, ids - {other}, id);
      TotalSizeRemove(torrents, ids - {id}, other);
      assert ids - {other} - {id} == ids - {id} - {other};
    }
  }

  /** The sizes of all torrent rows added up. */
  ghost function SummedSize(torrents: map<nat, Torrent>): int {
    TotalSize(torrents, torrents.Keys)
  }

  /** `get_total_torrent_size`. */
  method GetTotalTorrentSize(db: Database) returns (total: int)
    ensures total == SummedSize(db.torrents)
  {
    total := 0;
    var ids := db.torrents.Keys;
    while ids != {}
      invariant ids <= db.torrents.Keys
      invariant total + TotalSize(db.torrents, ids) == TotalSize(db.torrents, db.torrents.Keys)
      decreases ids
    {
      var id :| id in ids;
      TotalSizeRemove(db.torrents, ids, id);
      total := total + db.torrents[id].size;
      ids := ids - {id};
    }
  }

  /** The number of file rows one category's extensions match (`get_*_file_count`). */
  function CategoryFileCount(files: map<nat, TorrentFile>, c: Category): nat {
    FileCountByExtensions(files, Extensions(c))
  }

  /** What backfill_counts reads from the rows: the four kinds of row count it writes. */
  datatype RowCounts = RowCounts(torrentRows: nat, fileRows: nat, totalSize: int, categoryFiles: Category -> nat)

  /** The row counts of a database state. */
  ghost function RowCountsOf(torrents: map<nat, Torrent>, files: map<nat, TorrentFile>): RowCounts {
    RowCounts(|torrents|, |files|, SummedSize(torrents), c => CategoryFileCount(files, c))
  }

  /** The file counts of the categories `cs` added up, overlaps counted twice. */
  function CategorySum(r: RowCounts, cs: seq<Category>): nat
    decreases |cs|
  {
    if cs == [] then 0 else r.categoryFiles(cs[0]) + CategorySum(r, cs[1..])
  }

  /** The sizes the counters of the categories `cs` hold, added up. */
  function SizeSum(counts: map<string, int>, cs: seq<Category>): int
    decreases |cs|
  {
    if cs == [] then 0 else Get(counts, SizeName(cs[0])) + SizeSum(counts, cs[1..])
  }

  /** The file rows the seven category counts cover together. */
  function KnownFileCount(r: RowCounts): nat {
    CategorySum(r, CATEGORY_ORDER)
  }

  /** The bytes the seven category size counters hold. */
  function KnownSize(counts: map<string, int>): int {
    SizeSum(counts, CATEGORY_ORDER)
  }

  /** The three totals: torrent rows, file rows and the summed torrent sizes. */
  function WithTotals(counts: map<string, int>, r: RowCounts): map<string, int> {
    counts[TORRENTS := r.torrentRows][TORRENT_FILES := r.fileRows][TORRENT_FILES_SIZE := r.totalSize]
  }

  /** The category counter pair after `_backfill_counts` ran for category `c`. */
  function WithCategory(counts: map<string, int>, r: RowCounts, c: Category): map<string, int> {
    counts[CountName(c) := r.categoryFiles(c)][SizeName(c) := Get(counts, SizeName(c))]
  }

  /** The category pairs of `cs`, written in that order. */
  function WithCategories(counts: map<string, int>, r: RowCounts, cs: seq<Category>): map<string, int>
    decreases |cs|
  {
    if cs == [] then counts else WithCategories(WithCategory(counts, r, cs[0]), r, cs[1..])
  }

  /** The unknown pair, derived from the counters already written. */
  function WithUnknown(counts: map<string, int>, r: RowCounts): map<string, int> {
    counts[TORRENT_FILES_UNKNOWN := Max0(r.fileRows - KnownFileCount(r))]
      [TORRENT_FILES_UNKNOWN_SIZE := Max0(Get(counts, TORRENT_FILES_SIZE) - KnownSize(counts))]
  }

  /** The Counts table after backfill_counts read the row counts `r`. */
  function Apply(r: RowCounts, counts: map<string, int>): map<string, int> {
    WithUnknown(WithCategories(WithTotals(counts, r), r, CATEGORY_ORDER), r)
  }

  /** The Counts table after backfill_counts. */
  ghost function Backfilled(torrents: map<nat, Torrent>, files: map<nat, TorrentFile>, counts: map<string, int>): map<string, int> {
    Apply(RowCountsOf(torrents, files), counts)
  }

  /** `_backfill_counts`: create the row, or overwrite its value. */
  method SetCounter(db: Database, name: string, value: int)
    modifies db`counts
    ensures db.counts == old(db.counts)[name := value]
  {
    db.counts := db.counts[name := value];
  }

  /** The two `_backfill_counts` calls for one category: the file count, then the size read back as it is. */
  method BackfillCategory(db: Database, c: Category, ghost r: RowCounts)
    requires r == RowCountsOf(db.torrents, db.files)
    modifies db`counts
    ensures db.counts == WithCategory(old(db.counts), r, c)
  {
    SetCounter(db, CountName(c), CategoryFileCount(db.files, c));
    var size := GetCount(db, SizeName(c));
    SetCounter(db, SizeName(c), size);
  }

  /** `backfill_counts`. */
  method BackfillCounts(db: Database)
    modifies db`counts
    ensures db.counts == Backfilled(db.torrents, db.files, old(db.counts))
  {
    ghost var r := RowCountsOf(db.torrents, db.files);
    BackfillTotals(db, r);
    BackfillCategories(db, r);
    BackfillUnknown(db, r);
  }

  method BackfillTotals(db: Database, ghost r: RowCounts)
    requires r == RowCountsOf(db.torrents, db.files)
    modifies db`counts
    ensures db.counts == WithTotals(old(db.counts), r)
  {
    SetCounter(db, TORRENTS, |db.torrents|);
    SetCounter(db, TORRENT_FILES, |db.files|);
    var size := GetTotalTorrentSize(db);
    SetCounter(db, TORRENT_FILES_SIZE, size);
  }

  method BackfillCategories(db: Database, ghost r: RowCounts)
    requires r == RowCountsOf(db.torrents, db.files)
    modifies db`counts
    ensures db.counts == WithCategories(old(db.counts), r, CATEGORY_ORDER)
  {
    // The seven pairs are written one after another, in CATEGORY_ORDER.
    var todo := CATEGORY_ORDER;
    while todo != []
      invariant WithCategories(db.counts, r, todo) == WithCategories(old(db.counts), r, CATEGORY_ORDER)
      decreases |todo|
    {
      BackfillCategory(db, todo[0], r);
      todo := todo[1..];
    }
  }

  /** The seven category file counts of the file rows, added up. */
  function FileCountSum(files: map<nat, TorrentFile>, cs: seq<Category>): nat
    decreases |cs|
  {
    if cs == [] then 0 else CategoryFileCount(files, cs[0]) + FileCountSum(files, cs[1..])
  }

  /** The file rows the seven category queries count together, overlaps counted twice. */
  function KnownFiles(files: map<nat, TorrentFile>): nat {
    FileCountSum(files, CATEGORY_ORDER)
  }

  lemma KnownFilesOf(torrents: map<nat, Torrent>, files: map<nat, TorrentFile>)
    ensures KnownFiles(files) == KnownFileCount(RowCountsOf(torrents, files))
  {
    FileCountSumOf(torrents, files, CATEGORY_ORDER);
  }

  lemma {:induction false} FileCountSumOf(torrents: map<nat, Torrent>, files: map<nat, TorrentFile>, cs: seq<Category>)
    ensures FileCountSum(files, cs) == CategorySum(RowCountsOf(torrents, files), cs)
    decreases |cs|
  {
    if cs != [] {
      FileCountSumOf(torrents, files, cs[1..]);
    }
  }

  method BackfillUnknown(db: Database, ghost r: RowCounts)
    requires r == RowCountsOf(db.torrents, db.files)
    modifies db`counts
    ensures db.counts == WithUnknown(old(db.counts), r)
  {
    KnownFilesOf(db.torrents, db.files);
    var unknown := Max0(|db.files| - KnownFiles(db.files));
    assert unknown == Max0(r.fileRows - KnownFileCount(r));
    var totalSize := GetCount(db, TORRENT_FILES_SIZE);
    var unknownSize := Max0(totalSize - KnownSize(db.counts));
    UnknownPair(db.counts, r, unknown, totalSize, unknownSize);
    SetCounter(db, TORRENT_FILES_UNKNOWN, unknown);
    SetCounter(db, TORRENT_FILES_UNKNOWN_SIZE, unknownSize);
  }


  lemma UnknownPair(counts: map<string, int>, r: RowCounts, unknown: int, totalSize: int, unknownSize: int)
    requires unknown == Max0(r.fileRows - KnownFileCount(r))
    requires totalSize == Get(counts, TORRENT_FILES_SIZE)
    requires unknownSize == Max0(totalSize - KnownSize(counts))
    ensures counts[TORRENT_FILES_UNKNOWN := unknown][TORRENT_FILES_UNKNOWN_SIZE := unknownSize] == WithUnknown(counts, r)
  {
  }
}

module BackfillProps {
  import opened Schema
  import opened CountDb
  import opened Wrappers
  import opened Backfill
  import TorrentApi

  /** The category whose file count the counter `n` holds, if any. */
  function CountedCategory(n: string): (r: Option<Category>)
    ensures r.Some? ==> CountName(r.value) == n
    ensures r.None? ==> forall c :: CountName(c) != n
  {
    if n == CountName(Archive) then Some(Archive)
    else if n == CountName(Code) then Some(Code)
    else if n == CountName(Document) then Some(Document)
    else if n == CountName(Executable) then Some(Executable)
    else if n == CountName(Image) then Some(Image)
    else if n == CountName(Audio) then Some(Audio)
    else if n == CountName(Video) then Some(Video)
    else None
  }

  /** Distinct categories count into distinct counters. */
  lemma CountNameInjective(a: Category, b: Category)
    ensures CountName(a) == CountName(b) ==> a == b
  {
    assert CountedCategory(CountName(a)) == Some(a) by {
      match a
      case Archive =>
      case Code =>
      case Document =>
      case Executable =>
      case Image =>
      case Audio =>
      case Video =>
    }
  }

  /** Every category is visited. */
  lemma Visited(c: Category)
    ensures c in CATEGORY_ORDER
  {
    match c
    case Archive => assert CATEGORY_ORDER[0] == c;
    case Code => assert CATEGORY_ORDER[1] == c;
    case Document => assert CATEGORY_ORDER[2] == c;
    case Executable => assert CATEGORY_ORDER[3] == c;
    case Image => assert CATEGORY_ORDER[4] == c;
    case Audio => assert CATEGORY_ORDER[5] == c;
    case Video => assert CATEGORY_ORDER[6] == c;
  }

  /** The counter names the category writes of `cs` create. */
  function CategoryNames(cs: seq<Category>): (r: set<string>)
    ensures forall c :: c in cs ==> CountName(c) in r && SizeName(c) in r
    decreases |cs|
  {
    if cs == [] then {} else {CountName(cs[0]), SizeName(cs[0])} + CategoryNames(cs[1..])
  }

  /** A counter that no category of `cs` counts reads the same after their writes. */
  lemma {:induction false} CategoriesKeep(counts: map<string, int>, r: RowCounts, cs: seq<Category>, n: string)
    requires forall c :: c in cs ==> CountName(c) != n
    ensures Get(WithCategories(counts, r, cs), n) == Get(counts, n)
    decreases |cs|
  {
    if cs != [] {
      CategoriesKeep(WithCategory(counts, r, cs[0]), r, cs[1..], n);
    }
  }

  /** Each category of `cs` ends up holding its file count. */
  lemma {:induction false} CategoriesCount(counts: map<string, int>, r: RowCounts, cs: seq<Category>, c: Category)
    requires c in cs
    ensures Get(WithCategories(counts, r, cs), CountName(c)) == r.categoryFiles(c)
    decreases |cs|
  {
    var next := WithCategory(counts, r, cs[0]);
    if c in cs[1..] {
      CategoriesCount(next, r, cs[1..], c);
    } else {
      forall d | d in cs[1..] ensures CountName(d) != CountName(c) {
        CountNameInjective(d, c);
      }
      CategoriesKeep(next, r, cs[1..], CountName(c));
    }
  }

  /** The category writes of `cs` add their counters' names and remove none. */
  lemma {:induction false} CategoriesKeys(counts: map<string, int>, r: RowCounts, cs: seq<Category>)
    ensures WithCategories(counts, r, cs).Keys == counts.Keys + CategoryNames(cs)
    decreases |cs|
  {
    if cs != [] {
      CategoriesKeys(WithCategory(counts, r, cs[0]), r, cs[1..]);
    }
  }

  /** The size sum reads only the category size counters. */
  lemma {:induction false} SizeSumSame(a: map<string, int>, b: map<string, int>, cs: seq<Category>)
    requires forall c :: Get(a, SizeName(c)) == Get(b, SizeName(c))
    ensures SizeSum(a, cs) == SizeSum(b, cs)
    decreases |cs|
  {
    if cs != [] {
      SizeSumSame(a, b, cs[1..]);
    }
  }

  /** A category size counter is none of the names backfill_counts derives. */
  lemma SizeNameApart(c: Category)
    ensures CountedCategory(SizeName(c)).None?
    ensures SizeName(c) != TORRENTS && SizeName(c) != TORRENT_FILES && SizeName(c) != TORRENT_FILES_SIZE
    ensures SizeName(c) != TORRENT_FILES_UNKNOWN && SizeName(c) != TORRENT_FILES_UNKNOWN_SIZE
  {
  }

  /** The three totals are neither category counts nor the unknown pair. */
  lemma TotalNamesApart()
    ensures CountedCategory(TORRENTS).None? && TORRENTS != TORRENT_FILES_UNKNOWN && TORRENTS != TORRENT_FILES_UNKNOWN_SIZE
    ensures CountedCategory(TORRENT_FILES).None? && TORRENT_FILES != TORRENT_FILES_UNKNOWN && TORRENT_FILES != TORRENT_FILES_UNKNOWN_SIZE
    ensures CountedCategory(TORRENT_FILES_SIZE).None?
    ensures TORRENT_FILES_SIZE != TORRENT_FILES_UNKNOWN && TORRENT_FILES_SIZE != TORRENT_FILES_UNKNOWN_SIZE
  {
  }

  /** The unknown pair is no category count. */
  lemma UnknownNamesApart()
    ensures CountedCategory(TORRENT_FILES_UNKNOWN).None? && CountedCategory(TORRENT_FILES_UNKNOWN_SIZE).None?
  {
  }

  /** The table between the category writes and the unknown writes. */
  function Middle(r: RowCounts, counts: map<string, int>): map<string, int> {
    WithCategories(WithTotals(counts, r), r, CATEGORY_ORDER)
  }

  /** A counter that is no category count passes the category writes with the value the totals left. */
  lemma MiddleGet(r: RowCounts, counts: map<string, int>, n: string)
    requires CountedCategory(n).None?
    ensures Get(Middle(r, counts), n) == Get(WithTotals(counts, r), n)
  {
    CategoriesKeep(WithTotals(counts, r), r, CATEGORY_ORDER, n);
  }

  /** A counter that is neither a category count nor of the unknown pair reads what the totals left. */
  lemma AfterTotals(r: RowCounts, counts: map<string, int>, n: string)
    requires CountedCategory(n).None? && n != TORRENT_FILES_UNKNOWN && n != TORRENT_FILES_UNKNOWN_SIZE
    ensures Get(Apply(r, counts), n) == Get(WithTotals(counts, r), n)
  {
    MiddleGet(r, counts, n);
  }

  /** The torrents counter becomes the number of torrent rows. */
  lemma ApplyTorrents(r: RowCounts, counts: map<string, int>)
    ensures Get(Apply(r, counts), TORRENTS) == r.torrentRows
  {
    TotalNamesApart();
    AfterTotals(r, counts, TORRENTS);
  }

  /** The torrent_files counter becomes the number of file rows. */
  lemma ApplyFiles(r: RowCounts, counts: map<string, int>)
    ensures Get(Apply(r, counts), TORRENT_FILES) == r.fileRows
  {
    TotalNamesApart();
    AfterTotals(r, counts, TORRENT_FILES);
  }

  /** The torrent_files_size counter becomes the summed torrent sizes. */
  lemma ApplyTotalSize(r: RowCounts, counts: map<string, int>)
    ensures Get(Apply(r, counts), TORRENT_FILES_SIZE) == r.totalSize
  {
    TotalNamesApart();
    AfterTotals(r, counts, TORRENT_FILES_SIZE);
  }

  /** Each category count becomes the number of file rows its extensions match. */
  lemma ApplyCategory(r: RowCounts, counts: map<string, int>, c: Category)
    ensures Get(Apply(r, counts), CountName(c)) == r.categoryFiles(c)
  {
    UnknownNamesApart();
    Visited(c);
    CategoriesCount(WithTotals(counts, r), r, CATEGORY_ORDER, c);
  }

  /** The unknown count becomes the file rows no category count covers, clamped at 0. */
  lemma ApplyUnknown(r: RowCounts, counts: map<string, int>)
    ensures Get(Apply(r, counts), TORRENT_FILES_UNKNOWN) == Max0(r.fileRows - KnownFileCount(r))
  {
  }

  /** The category size counters pass the totals and the category writes unchanged. */
  lemma MiddleSize(r: RowCounts, counts: map<string, int>, c: Category)
    ensures Get(Middle(r, counts), SizeName(c)) == Get(counts, SizeName(c))
  {
    SizeNameApart(c);
    MiddleGet(r, counts, SizeName(c));
  }

  /** The unknown size becomes the summed sizes less the category sizes read before, clamped at 0. */
  lemma ApplyUnknownSize(r: RowCounts, counts: map<string, int>)
    ensures Get(Apply(r, counts), TORRENT_FILES_UNKNOWN_SIZE) == Max0(r.totalSize - KnownSize(counts))
  {
    var m := Middle(r, counts);
    TotalNamesApart();
    MiddleGet(r, counts, TORRENT_FILES_SIZE);
    forall c ensures Get(m, SizeName(c)) == Get(counts, SizeName(c)) {
      MiddleSize(r, counts, c);
    }
    SizeSumSame(m, counts, CATEGORY_ORDER);
  }

  /** Every counter backfill_counts does not derive, the category sizes among them, keeps its value. */
  lemma ApplyKeeps(r: RowCounts, counts: map<string, int>, n: string)
    requires CountedCategory(n).None?
    requires n != TORRENTS && n != TORRENT_FILES && n != TORRENT_FILES_SIZE
    requires n != TORRENT_FILES_UNKNOWN && n != TORRENT_FILES_UNKNOWN_SIZE
    ensures Get(Apply(r, counts), n) == Get(counts, n)
  {
    AfterTotals(r, counts, n);
  }

  /** The nineteen counter names as a set. */
  function CounterSet(): set<string> {
    {TORRENTS, TORRENT_FILES, TORRENT_FILES_SIZE} + CategoryNames(CATEGORY_ORDER) + {TORRENT_FILES_UNKNOWN, TORRENT_FILES_UNKNOWN_SIZE}
  }

  /** The counters that exist afterwards: the old ones and all nineteen. */
  lemma ApplyKeys(r: RowCounts, counts: map<string, int>)
    ensures Apply(r, counts).Keys == counts.Keys + CounterSet()
  {
    CategoriesKeys(WithTotals(counts, r), r, CATEGORY_ORDER);
  }

  /** The category sizes are left as they were, so their sum too. */
  lemma ApplyKnownSize(r: RowCounts, counts: map<string, int>)
    ensures KnownSize(Apply(r, counts)) == KnownSize(counts)
  {
    forall c ensures Get(Apply(r, counts), SizeName(c)) == Get(counts, SizeName(c)) {
      SizeNameApart(c);
      ApplyKeeps(r, counts, SizeName(c));
    }
    SizeSumSame(Apply(r, counts), counts, CATEGORY_ORDER);
  }

  /**
   * A Counts table that agrees with the row counts `r`: all nineteen counters exist, the
   * totals and category counts match, and the unknown pair is derived from the other counters.
   */
  predicate Consistent(r: RowCounts, b: map<string, int>) {
    && CounterSet() <= b.Keys
    && Get(b, TORRENTS) == r.torrentRows
    && Get(b, TORRENT_FILES) == r.fileRows
    && Get(b, TORRENT_FILES_SIZE) == r.totalSize
    && (forall c :: Get(b, CountName(c)) == r.categoryFiles(c))
    && Get(b, TORRENT_FILES_UNKNOWN) == Max0(r.fileRows - KnownFileCount(r))
    && Get(b, TORRENT_FILES_UNKNOWN_SIZE) == Max0(Get(b, TORRENT_FILES_SIZE) - KnownSize(b))
  }

  /** backfill_counts always leaves a consistent table. */
  lemma ApplyConsistent(r: RowCounts, counts: map<string, int>)
    ensures Consistent(r, Apply(r, counts))
  {
    ApplyTotalsAgree(r, counts);
    ApplyDerivedAgree(r, counts);
  }

  lemma ApplyTotalsAgree(r: RowCounts, counts: map<string, int>)
    ensures var b := Apply(r, counts);
      && CounterSet() <= b.Keys
      && Get(b, TORRENTS) == r.torrentRows
      && Get(b, TORRENT_FILES) == r.fileRows
      && Get(b, TORRENT_FILES_SIZE) == r.totalSize
  {
    ApplyKeys(r, counts);
    ApplyTorrents(r, counts);
    ApplyFiles(r, counts);
    ApplyTotalSize(r, counts);
  }

  lemma ApplyDerivedAgree(r: RowCounts, counts: map<string, int>)
    ensures var b := Apply(r, counts);
      && (forall c :: Get(b, CountName(c)) == r.categoryFiles(c))
      && Get(b, TORRENT_FILES_UNKNOWN) == Max0(r.fileRows - KnownFileCount(r))
      && Get(b, TORRENT_FILES_UNKNOWN_SIZE) == Max0(r.totalSize - KnownSize(b))
  {
    forall c ensures Get(Apply(r, counts), CountName(c)) == r.categoryFiles(c) {
      ApplyCategory(r, counts, c);
    }
    ApplyUnknown(r, counts);
    ApplyUnknownSizeAgain(r, counts);
  }

  /** The unknown size is derived from the category sizes the table ends up with. */
  lemma ApplyUnknownSizeAgain(r: RowCounts, counts: map<string, int>)
    ensures Get(Apply(r, counts), TORRENT_FILES_UNKNOWN_SIZE) == Max0(r.totalSize - KnownSize(Apply(r, counts)))
  {
    ApplyUnknownSize(r, counts);
    ApplyKnownSize(r, counts);
  }

  /** On a consistent table backfill_counts rewrites every counter with the value it already holds. */
  lemma ConsistentFixed(r: RowCounts, b: map<string, int>)
    requires Consistent(r, b)
    ensures Apply(r, b) == b
  {
    var a := Apply(r, b);
    ApplyKeys(r, b);
    Absorbs(b.Keys, CounterSet());
    forall n | n in b
      ensures a[n] == b[n]
    {
      FixedCounter(r, b, n);
    }
    SameEntries(a, b);
  }

  lemma Absorbs(keys: set<string>, names: set<string>)
    requires names <= keys
    ensures keys + names == keys
  {
  }

  /** Two tables with the same names and the same value under each name are equal. */
  lemma SameEntries(a: map<string, int>, b: map<string, int>)
    requires a.Keys == b.Keys
    requires forall n :: n in b ==> a[n] == b[n]
    ensures a == b
  {
  }

  /** One counter of a consistent table reads the same afterwards. */
  lemma FixedCounter(r: RowCounts, b: map<string, int>, n: string)
    requires Consistent(r, b)
    ensures Get(Apply(r, b), n) == Get(b, n)
  {
    if n == TORRENTS {
      ApplyTorrents(r, b);
    } else if n == TORRENT_FILES {
      ApplyFiles(r, b);
    } else if n == TORRENT_FILES_SIZE {
      ApplyTotalSize(r, b);
    } else if n == TORRENT_FILES_UNKNOWN {
      ApplyUnknown(r, b);
    } else if n == TORRENT_FILES_UNKNOWN_SIZE {
      ApplyUnknownSize(r, b);
    } else if CountedCategory(n).Some? {
      ApplyCategory(r, b, CountedCategory(n).value);
    } else {
      ApplyKeeps(r, b, n);
    }
  }

  /** A second backfill_counts over the same rows changes nothing. */
  lemma ApplyIdempotent(r: RowCounts, counts: map<string, int>)
    ensures Apply(r, Apply(r, counts)) == Apply(r, counts)
  {
    ApplyConsistent(r, counts);
    ConsistentFixed(r, Apply(r, counts));
  }

  // The same facts about the rows of a database.

  /** After backfill_counts the torrents counter is the number of torrent rows. */
  lemma BackfilledTorrentCount(torrents: map<nat, Torrent>, files: map<nat, TorrentFile>, counts: map<string, int>)
    ensures Get(Backfilled(torrents, files, counts), TORRENTS) == |torrents|
  {
    ApplyTorrents(RowCountsOf(torrents, files), counts);
  }

  /** After backfill_counts the torrent_files counter is the number of file rows. */
  lemma BackfilledFileCount(torrents: map<nat, Torrent>, files: map<nat, TorrentFile>, counts: map<string, int>)
    ensures Get(Backfilled(torrents, files, counts), TORRENT_FILES) == |files|
  {
    ApplyFiles(RowCountsOf(torrents, files), counts);
  }

  /** After backfill_counts the torrent_files_size counter is the sum of the torrent rows' sizes. */
  lemma BackfilledTotalSize(torrents: map<nat, Torrent>, files: map<nat, TorrentFile>, counts: map<string, int>)
    ensures Get(Backfilled(torrents, files, counts), TORRENT_FILES_SIZE) == SummedSize(torrents)
  {
    ApplyTotalSize(RowCountsOf(torrents, files), counts);
  }

  /** After backfill_counts each category count is the number of file rows its extensions match. */
  lemma BackfilledCategoryCount(torrents: map<nat, Torrent>, files: map<nat, TorrentFile>, counts: map<string, int>, c: Category)
    ensures Get(Backfilled(torrents, files, counts), CountName(c)) == CategoryFileCount(files, c)
  {
    ApplyCategory(RowCountsOf(torrents, files), counts, c);
  }

  /** After backfill_counts the unknown count is the file rows no category count covers, clamped at 0. */
  lemma BackfilledUnknownCount(torrents: map<nat, Torrent>, files: map<nat, TorrentFile>, counts: map<string, int>)
    ensures Get(Backfilled(torrents, files, counts), TORRENT_FILES_UNKNOWN) == Max0(|files| - KnownFiles(files))
  {
    ApplyUnknown(RowCountsOf(torrents, files), counts);
    KnownFilesOf(torrents, files);
  }

  /**
   * After backfill_counts the unknown size is the summed torrent sizes less the category
   * sizes read before the backfill, clamped at 0.
   */
  lemma BackfilledUnknownSize(torrents: map<nat, Torrent>, files: map<nat, TorrentFile>, counts: map<string, int>)
    ensures Get(Backfilled(torrents, files, counts), TORRENT_FILES_UNKNOWN_SIZE) == Max0(SummedSize(torrents) - KnownSize(counts))
  {
    ApplyUnknownSize(RowCountsOf(torrents, files), counts);
  }

  /** Every counter backfill_counts does not derive, the category sizes among them, keeps its value. */
  lemma BackfilledKeeps(torrents: map<nat, Torrent>, files: map<nat, TorrentFile>, counts: map<string, int>, n: string)
    requires CountedCategory(n).None?
    requires n != TORRENTS && n != TORRENT_FILES && n != TORRENT_FILES_SIZE
    requires n != TORRENT_FILES_UNKNOWN && n != TORRENT_FILES_UNKNOWN_SIZE
    ensures Get(Backfilled(torrents, files, counts), n) == Get(counts, n)
  {
    ApplyKeeps(RowCountsOf(torrents, files), counts, n);
  }

  /** The counters that exist after backfill_counts: the old ones and all nineteen. */
  lemma BackfilledKeys(torrents: map<nat, Torrent>, files: map<nat, TorrentFile>, counts: map<string, int>)
    ensures Backfilled(torrents, files, counts).Keys == counts.Keys + CounterSet()
  {
    ApplyKeys(RowCountsOf(torrents, files), counts);
  }

  /** A second backfill_counts over the same rows changes nothing. */
  lemma BackfillIdempotent(torrents: map<nat, Torrent>, files: map<nat, TorrentFile>, counts: map<string, int>)
    ensures var b := Backfilled(torrents, files, counts);
      Backfilled(torrents, files, b) == b
  {
    ApplyIdempotent(RowCountsOf(torrents, files), counts);
  }

  /**
   * After backfill_counts every counter update_counts needs exists, so recording a new
   * torrent can no longer fail for a missing row, whatever files it brings.
   */
  lemma BackfillEnablesUpdates(torrents: map<nat, Torrent>, files: map<nat, TorrentFile>, counts: map<string, int>, created: seq<TorrentApi.FileEntry>)
    ensures TorrentApi.CountsAfter(Backfilled(torrents, files, counts), created).ok
  {
    BackfilledKeys(torrents, files, counts);
  }

  /** The file rows category `c`'s extensions match. */
  ghost function CategoryIds(files: map<nat, TorrentFile>, c: Category): set<nat> {
    set id | id in files && MatchesAny(files[id].path, Extensions(c))
  }

  /** The file rows some table matches, and those no table matches. */
  ghost function KnownIds(files: map<nat, TorrentFile>): set<nat> {
    set id | id in files && IsKnown(files[id].path)
  }

  ghost function UnknownIds(files: map<nat, TorrentFile>): set<nat> {
    set id | id in files && !IsKnown(files[id].path)
  }

  /** The file rows the categories `cs` match, each once. */
  ghost function CoveredIds(files: map<nat, TorrentFile>, cs: seq<Category>): set<nat>
    decreases |cs|
  {
    if cs == [] then {} else CategoryIds(files, cs[0]) + CoveredIds(files, cs[1..])
  }

  /** A category's file count is the number of rows its extensions match. */
  lemma CategoryIdsCount(files: map<nat, TorrentFile>, c: Category)
    ensures CategoryFileCount(files, c) == |CategoryIds(files, c)|
  {
    assert |Extensions(c)| > 0 by {
      match c
      case Video => assert VIDEO_EXTENSIONS[0] == ".mp4";
      case Audio => assert AUDIO_EXTENSIONS[0] == ".mp3";
      case Image => assert IMAGE_EXTENSIONS[0] == ".jpg";
      case Document => assert DOCUMENT_EXTENSIONS[0] == ".pdf";
      case Archive => assert ARCHIVE_EXTENSIONS[0] == ".zip";
      case Executable => assert EXECUTABLE_EXTENSIONS[0] == ".exe";
      case Code => assert CODE_EXTENSIONS[0] == ".py";
    }
  }

  /** Summing the category counts counts a row matched by several tables several times, so never less than once. */
  lemma {:induction false} CoveredAtMostSum(files: map<nat, TorrentFile>, cs: seq<Category>)
    ensures |CoveredIds(files, cs)| <= FileCountSum(files, cs)
    decreases |cs|
  {
    if cs != [] {
      CoveredAtMostSum(files, cs[1..]);
      CategoryIdsCount(files, cs[0]);
      var a, b := CategoryIds(files, cs[0]), CoveredIds(files, cs[1..]);
      assert |a + b| + |a * b| == |a| + |b|;
    }
  }

  /** A row is covered by `cs` exactly when some category of `cs` matches it. */
  lemma {:induction false} CoveredMembers(files: map<nat, TorrentFile>, cs: seq<Category>, id: nat)
    ensures id in CoveredIds(files, cs) <==> id in files && exists c :: c in cs && MatchesAny(files[id].path, Extensions(c))
    decreases |cs|
  {
    if cs != [] {
      CoveredMembers(files, cs[1..], id);
      assert cs == [cs[0]] + cs[1..];
    }
  }

  /** The seven categories together cover exactly the known rows. */
  lemma CoveredAreKnown(files: map<nat, TorrentFile>)
    ensures CoveredIds(files, CATEGORY_ORDER) == KnownIds(files)
  {
    forall id ensures id in CoveredIds(files, CATEGORY_ORDER) <==> id in KnownIds(files) {
      CoveredMembers(files, CATEGORY_ORDER, id);
      if id in files {
        KnownIffSomeCategory(files[id].path);
        forall c | MatchesAny(files[id].path, Extensions(c)) ensures c in CATEGORY_ORDER {
          Visited(c);
        }
      }
    }
  }

  /** Every row is known or unknown, never both. */
  lemma KnownUnknownSplit(files: map<nat, TorrentFile>)
    ensures |KnownIds(files)| + |UnknownIds(files)| == |files|
  {
    var k, u := KnownIds(files), UnknownIds(files);
    assert k * u == {};
    assert k + u == files.Keys;
    assert |k + u| + |k * u| == |k| + |u|;
  }

  /**
   * The unknown count backfill_counts derives never exceeds the number of rows no table
   * matches: a row two tables match is subtracted twice, so it can only fall short.
   */
  lemma BackfilledUnknownAtMost(torrents: map<nat, Torrent>, files: map<nat, TorrentFile>, counts: map<string, int>)
    ensures Get(Backfilled(torrents, files, counts), TORRENT_FILES_UNKNOWN) <= |UnknownIds(files)|
  {
    BackfilledUnknownCount(torrents, files, counts);
    CoveredAtMostSum(files, CATEGORY_ORDER);
    CoveredAreKnown(files);
    KnownUnknownSplit(files);
  }

  /** A row two of the categories `cs` match makes the sum exceed the covered rows. */
  lemma {:induction false} CoveredBelowSum(files: map<nat, TorrentFile>, cs: seq<Category>, id: nat, c1: Category, c2: Category)
    requires c1 in cs && c2 in cs && c1 != c2
    requires id in CategoryIds(files, c1) && id in CategoryIds(files, c2)
    ensures |CoveredIds(files, cs)| < FileCountSum(files, cs)
    decreases |cs|
  {
    var a, b := CategoryIds(files, cs[0]), CoveredIds(files, cs[1..]);
    CategoryIdsCount(files, cs[0]);
    assert |a + b| + |a * b| == |a| + |b|;
    if cs[0] == c1 || cs[0] == c2 {
      var other := if cs[0] == c1 then c2 else c1;
      assert other in cs[1..];
      CoveredMembers(files, cs[1..], id);
      assert id in a * b;
      CoveredAtMostSum(files, cs[1..]);
    } else {
      CoveredBelowSum(files, cs[1..], id, c1, c2);
    }
  }

  /**
   * And it does fall short: once any row is unknown, a single row that two tables
   * match (".ts" is both a video and a code extension) leaves the backfilled unknown
   * count strictly below the number of unknown rows.
   */
  lemma BackfillUndercountsOverlap(torrents: map<nat, Torrent>, files: map<nat, TorrentFile>, counts: map<string, int>,
                                   id: nat, c1: Category, c2: Category)
    requires c1 != c2 && id in CategoryIds(files, c1) && id in CategoryIds(files, c2)
    requires UnknownIds(files) != {}
    ensures Get(Backfilled(torrents, files, counts), TORRENT_FILES_UNKNOWN) < |UnknownIds(files)|
  {
    BackfilledUnknownCount(torrents, files, counts);
    Visited(c1);
    Visited(c2);
    CoveredBelowSum(files, CATEGORY_ORDER, id, c1, c2);
    CoveredAreKnown(files);
    KnownUnknownSplit(files);
  }

  /**
   * After backfill_counts the category counts and the unknown count cover every file
   * row, and the unknown count never exceeds the file rows.
   */
  lemma BackfillCoversEveryFile(torrents: map<nat, Torrent>, files: map<nat, TorrentFile>, counts: map<string, int>)
    ensures var b := Backfilled(torrents, files, counts);
      && KnownFiles(files) + Get(b, TORRENT_FILES_UNKNOWN) >= Get(b, TORRENT_FILES)
      && 0 <= Get(b, TORRENT_FILES_UNKNOWN) <= Get(b, TORRENT_FILES)
  {
    BackfilledFileCount(torrents, files, counts);
    BackfilledUnknownCount(torrents, files, counts);
  }
}
