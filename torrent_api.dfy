/**
 * The ingestion endpoint (api/torrent.py): the request types, the per-category
 * tallies, the counter policy for newly created files, file resolution and
 * linking, `add_torrent`, and the credential check of `api_add_torrent`.
 */
module TorrentApi {
  import opened Wrappers
  import opened Text
  import opened Schema
  import opened CountDb

  /** `AddTorrentFile`. */
  datatype FileEntry = FileEntry(path: string, size: int)

  /** `AddTorrent`: the torrent a crawler reports. */
  datatype Submission = Submission(infoHash: string, name: string, size: int, files: seq<FileEntry>)

  /** `AddTorrentRequest`: the torrent, and optionally the reporting crawler's credentials. */
  datatype Request = Request(torrent: Submission, name: Option<string>, token: Option<string>)

  /** `AddTorrentResponse`. */
  datatype Response = Response(error: bool, message: string)

  const INVALID_CREDENTIALS := "Invalid credentials"

  // ---------------------------------------------------------------------------
  // Tallies over a list of files

  /** The files whose lower-cased path ends with one of `exts`, in order. */
  function Matching(files: seq<FileEntry>, exts: seq<string>): (r: seq<FileEntry>)
    ensures |r| <= |files|
  {
    if files == [] then []
    else
      var pre := Matching(files[..|files| - 1], exts);
      var f := files[|files| - 1];
      assert files == files[..|files| - 1] + [f];
      if MatchesAny(f.path, exts) then pre + [f] else pre
  }

  /** The files that match no known extension, in order. */
  function UnknownFiles(files: seq<FileEntry>): (r: seq<FileEntry>)
    ensures |r| <= |files|
  {
    if files == [] then []
    else
      var pre := UnknownFiles(files[..|files| - 1]);
      var f := files[|files| - 1];
      assert files == files[..|files| - 1] + [f];
      if IsKnown(f.path) then pre else pre + [f]
  }

  /** `sum(f.size for f in files)`. */
  function SumSizes(files: seq<FileEntry>): int {
    if files == [] then 0 else SumSizes(files[..|files| - 1]) + files[|files| - 1].size
  }

  /** How many files one category table counts: each file at most once. */
  function CountMatching(files: seq<FileEntry>, exts: seq<string>): nat {
    |Matching(files, exts)|
  }

  /** The bytes one category table counts. */
  function SizeMatching(files: seq<FileEntry>, exts: seq<string>): int {
    SumSizes(Matching(files, exts))
  }

  /** `get_torrent_file_type_count`. */
  method FileTypeCount(files: seq<FileEntry>, endings: seq<string>) returns (ret: nat)
    ensures ret == CountMatching(files, endings)
    ensures ret <= |files|
  {
    ret := 0;
    for i := 0 to |files|
      invariant ret == CountMatching(files[..i], endings)
    {
      var hit := EndsWithAny(files[i].path, endings);
      if hit {
        ret := ret + 1;
      }
      assert files[..i + 1][..i] == files[..i];
    }
    assert files[..|files|] == files;
  }

  /** `get_torrent_file_type_size`. */
  method FileTypeSize(files: seq<FileEntry>, endings: seq<string>) returns (ret: int)
    ensures ret == SizeMatching(files, endings)
  {
    ret := 0;
    for i := 0 to |files|
      invariant ret == SizeMatching(files[..i], endings)
    {
      var hit := EndsWithAny(files[i].path, endings);
      if hit {
        ret := ret + files[i].size;
      }
      assert files[..i + 1][..i] == files[..i];
    }
    assert files[..|files|] == files;
  }

  /** The inner loop of both tallies: stop at the first ending the lower-cased path has. */
  method EndsWithAny(path: string, endings: seq<string>) returns (hit: bool)
    ensures hit <==> MatchesAny(path, endings)
  {
    hit := false;
    for j := 0 to |endings|
      invariant !hit
      invariant forall k :: 0 <= k < j ==> !EndsWith(Lower(path), endings[k])
    {
      if EndsWith(Lower(path), endings[j]) {
        hit := true;
        return;
      }
    }
  }

  /** A category tally keeps exactly the files whose path matches the table. */
  lemma {:induction false} MatchingMembers(files: seq<FileEntry>, exts: seq<string>)
    ensures forall f :: f in Matching(files, exts) <==> f in files && MatchesAny(f.path, exts)
  {
    if files != [] {
      MatchingMembers(files[..|files| - 1], exts);
      assert files == files[..|files| - 1] + [files[|files| - 1]];
    }
  }

  /** The unknown tally keeps exactly the files no table matches. */
  lemma {:induction false} UnknownMembers(files: seq<FileEntry>)
    ensures forall f :: f in UnknownFiles(files) <==> f in files && !IsKnown(f.path)
  {
    if files != [] {
      UnknownMembers(files[..|files| - 1]);
      assert files == files[..|files| - 1] + [files[|files| - 1]];
    }
  }

  /** A file list splits into the files some table matches and the unknown ones. */
  lemma {:induction false} KnownAndUnknownPartition(files: seq<FileEntry>)
    ensures CountMatching(files, ALL_KNOWN_EXTENSIONS) + |UnknownFiles(files)| == |files|
    ensures SizeMatching(files, ALL_KNOWN_EXTENSIONS) + SumSizes(UnknownFiles(files)) == SumSizes(files)
  {
    if files != [] {
      KnownAndUnknownPartition(files[..|files| - 1]);
    }
  }

  /** What the seven category counters together receive for `files`. */
  function CategoryCountSum(files: seq<FileEntry>): nat {
    CountMatching(files, Extensions(Video)) + CountMatching(files, Extensions(Audio))
    + CountMatching(files, Extensions(Image)) + CountMatching(files, Extensions(Document))
    + CountMatching(files, Extensions(Archive)) + CountMatching(files, Extensions(Executable))
    + CountMatching(files, Extensions(Code))
  }

  /** Every file lands in at least one bucket: some category or unknown, never none. */
  lemma {:induction false} EveryFileCounted(files: seq<FileEntry>)
    ensures CategoryCountSum(files) + |UnknownFiles(files)| >= |files|
  {
    if files != [] {
      var f := files[|files| - 1];
      EveryFileCounted(files[..|files| - 1]);
      KnownIffSomeCategory(f.path);
    }
  }

  /** But a file may land in two buckets: one ".TS" file adds 2 to the category counters. */
  lemma OneFileCountedTwice()
    ensures CategoryCountSum([FileEntry("clip.TS", 5)]) >= 2
  {
    CategoriesNotExclusive();
    var f := FileEntry("clip.TS", 5);
    assert [f][..0] == [];
    assert Matching([f], Extensions(Video)) == [f];
    assert Matching([f], Extensions(Code)) == [f];
  }

  // ---------------------------------------------------------------------------
  // The counter policy of update_counts

  /** The count and size writes for the categories `cats`, in order. */
  function CategoryWrites(files: seq<FileEntry>, cats: seq<Category>): (ws: seq<Write>)
    ensures |ws| == 2 * |cats|
  {
    if cats == [] then []
    else
      var c := cats[|cats| - 1];
      CategoryWrites(files, cats[..|cats| - 1])
      + [Write(CountName(c), CountMatching(files, Extensions(c))), Write(SizeName(c), SizeMatching(files, Extensions(c)))]
  }

  lemma {:induction false} CategoryWritesAt(files: seq<FileEntry>, cats: seq<Category>, i: nat)
    requires i < |cats|
    ensures CategoryWrites(files, cats)[2 * i] == Write(CountName(cats[i]), CountMatching(files, Extensions(cats[i])))
    ensures CategoryWrites(files, cats)[2 * i + 1] == Write(SizeName(cats[i]), SizeMatching(files, Extensions(cats[i])))
  {
    if i < |cats| - 1 {
      CategoryWritesAt(files, cats[..|cats| - 1], i);
    }
  }

  /** The two writes for the files that match no table. */
  function UnknownWrites(files: seq<FileEntry>): seq<Write> {
    var u := UnknownFiles(files);
    [Write(TORRENT_FILES_UNKNOWN, |u|), Write(TORRENT_FILES_UNKNOWN_SIZE, SumSizes(u))]
  }

  /** The writes update_counts makes after the three totals. */
  function TallyWrites(files: seq<FileEntry>): seq<Write> {
    CategoryWrites(files, CATEGORY_ORDER) + UnknownWrites(files)
  }

  /** The counts after update_counts, and whether it finished (it raises on a missing total row). */
  datatype CountsOutcome = CountsOutcome(counts: map<string, int>, ok: bool)

  function CountsAfter(counts: map<string, int>, created: seq<FileEntry>): (r: CountsOutcome)
    ensures r.ok <==> TORRENTS in counts && (SumSizes(created) > 0 ==> TORRENT_FILES_SIZE in counts)
    ensures TORRENTS !in counts ==> r.counts == counts
  {
    if TORRENTS !in counts then CountsOutcome(counts, false)
    else
      var c := Bump(Bump(counts, TORRENTS, 1), TORRENT_FILES, |created|);
      if SumSizes(created) > 0 && TORRENT_FILES_SIZE !in c then CountsOutcome(c, false)
      else CountsOutcome(ApplyWrites(WithTotals(counts, created), TallyWrites(created)), true)
  }

  /** Category `CATEGORY_ORDER[i]` writes its two counters at positions `2i` and `2i + 1`. */
  lemma TallyCategoryNames(files: seq<FileEntry>, i: nat)
    requires i < 7
    ensures |TallyWrites(files)| == 16
    ensures TallyWrites(files)[2 * i].name == ALL_COUNTER_NAMES[3 + 2 * i]
    ensures TallyWrites(files)[2 * i + 1].name == ALL_COUNTER_NAMES[4 + 2 * i]
  {
    var cw := CategoryWrites(files, CATEGORY_ORDER);
    CategoryWritesAt(files, CATEGORY_ORDER, i);
    assert TallyWrites(files)[2 * i] == cw[2 * i];
    assert TallyWrites(files)[2 * i + 1] == cw[2 * i + 1];
    OrderNames(i);
  }

  /** The counter list holds each category's names in update order, after the three totals. */
  lemma OrderNames(i: nat)
    requires i < 7
    ensures CountName(CATEGORY_ORDER[i]) == ALL_COUNTER_NAMES[3 + 2 * i]
    ensures SizeName(CATEGORY_ORDER[i]) == ALL_COUNTER_NAMES[4 + 2 * i]
  {
    if i == 0 { } else if i == 1 { } else if i == 2 { } else if i == 3 { } else if i == 4 { } else if i == 5 { } else { }
  }

  /** The tally writes name, in order, every counter after the three totals. */
  lemma TallyWriteNames(files: seq<FileEntry>, j: nat)
    requires j < 16
    ensures |TallyWrites(files)| == 16
    ensures TallyWrites(files)[j].name == ALL_COUNTER_NAMES[3 + j]
  {
    if j < 14 {
      var i := j / 2;
      TallyCategoryNames(files, i);
      assert j == 2 * i || j == 2 * i + 1;
    }
  }

  /** The counter named by tally write `k` receives exactly that write, and nothing else from the tally. */
  lemma TallyDelta(files: seq<FileEntry>, k: nat)
    requires k < 16
    ensures Delta(TallyWrites(files), ALL_COUNTER_NAMES[3 + k]) == Max0(TallyWrites(files)[k].add)
  {
    var ws := TallyWrites(files);
    CounterNamesDistinct();
    TallyWriteNames(files, k);
    forall j | 0 <= j < |ws| && j != k ensures ws[j].name != ws[k].name {
      TallyWriteNames(files, j);
    }
    DeltaOfUniqueName(ws, k);
  }

  /** The tally writes never touch the three totals nor any name outside the counter list. */
  lemma TallyMisses(files: seq<FileEntry>, n: string)
    requires n !in ALL_COUNTER_NAMES[3..]
    ensures Delta(TallyWrites(files), n) == 0
  {
    var ws := TallyWrites(files);
    forall j | 0 <= j < |ws| ensures ws[j].name != n {
      TallyWriteNames(files, j);
      assert ALL_COUNTER_NAMES[3 + j] == ALL_COUNTER_NAMES[3..][j];
    }
    DeltaOfAbsentName(ws, n);
  }

  /** Where each category's count write sits among the tally writes. */
  function Slot(c: Category): (i: nat)
    ensures i < 7 && CATEGORY_ORDER[i] == c
  {
    match c
    case Archive => 0
    case Code => 1
    case Document => 2
    case Executable => 3
    case Image => 4
    case Audio => 5
    case Video => 6
  }

  /** A category's two counters grow by its matches among the new files. */
  lemma CategoryEffect(c3: map<string, int>, created: seq<FileEntry>, c: Category)
    ensures var r := ApplyWrites(c3, TallyWrites(created));
      && Get(r, CountName(c)) == Get(c3, CountName(c)) + CountMatching(created, Extensions(c))
      && Get(r, SizeName(c)) == Get(c3, SizeName(c)) + Max0(SizeMatching(created, Extensions(c)))
  {
    var ws := TallyWrites(created);
    var i := Slot(c);
    CategoryWritesAt(created, CATEGORY_ORDER, i);
    assert ws[2 * i] == CategoryWrites(created, CATEGORY_ORDER)[2 * i];
    assert ws[2 * i + 1] == CategoryWrites(created, CATEGORY_ORDER)[2 * i + 1];
    OrderNames(i);
    TallyDelta(created, 2 * i);
    TallyDelta(created, 2 * i + 1);
    ApplyWritesGet(c3, ws, CountName(c));
    ApplyWritesGet(c3, ws, SizeName(c));
  }

  /** The unknown counters grow by the files no table matches. */
  lemma UnknownEffect(c3: map<string, int>, created: seq<FileEntry>)
    ensures var r := ApplyWrites(c3, TallyWrites(created));
      && Get(r, TORRENT_FILES_UNKNOWN) == Get(c3, TORRENT_FILES_UNKNOWN) + |UnknownFiles(created)|
      && Get(r, TORRENT_FILES_UNKNOWN_SIZE) == Get(c3, TORRENT_FILES_UNKNOWN_SIZE) + Max0(SumSizes(UnknownFiles(created)))
  {
    var ws := TallyWrites(created);
    assert ws[14] == UnknownWrites(created)[0] && ws[15] == UnknownWrites(created)[1];
    TallyDelta(created, 14);
    ApplyWritesGet(c3, ws, TORRENT_FILES_UNKNOWN);
    TallyDelta(created, 15);
    ApplyWritesGet(c3, ws, TORRENT_FILES_UNKNOWN_SIZE);
  }

  /** A counter the tally does not name keeps its value and its presence. */
  lemma TallyKeeps(c3: map<string, int>, created: seq<FileEntry>, n: string)
    requires n !in ALL_COUNTER_NAMES[3..]
    ensures var r := ApplyWrites(c3, TallyWrites(created));
      Get(r, n) == Get(c3, n) && (n in r <==> n in c3)
  {
    TallyMisses(created, n);
    ApplyWritesGet(c3, TallyWrites(created), n);
  }

  /**
   * What update_counts does when it finishes: "torrents" grows by 1, "torrent_files" by the
   * number of new files, "torrent_files_size" by their bytes, every category counter by its
   * matches among the new files only, the unknown counters by the files no table matches;
   * a non-positive amount writes nothing and no other counter changes.
   */
  lemma UpdateCountsEffect(counts: map<string, int>, created: seq<FileEntry>)
    requires CountsAfter(counts, created).ok
    ensures var r := CountsAfter(counts, created).counts;
      && Get(r, TORRENTS) == Get(counts, TORRENTS) + 1
      && Get(r, TORRENT_FILES) == Get(counts, TORRENT_FILES) + |created|
      && Get(r, TORRENT_FILES_SIZE) == Get(counts, TORRENT_FILES_SIZE) + Max0(SumSizes(created))
      && (forall c :: Get(r, CountName(c)) == Get(counts, CountName(c)) + CountMatching(created, Extensions(c)))
      && (forall c :: Get(r, SizeName(c)) == Get(counts, SizeName(c)) + Max0(SizeMatching(created, Extensions(c))))
      && Get(r, TORRENT_FILES_UNKNOWN) == Get(counts, TORRENT_FILES_UNKNOWN) + |UnknownFiles(created)|
      && Get(r, TORRENT_FILES_UNKNOWN_SIZE) == Get(counts, TORRENT_FILES_UNKNOWN_SIZE) + Max0(SumSizes(UnknownFiles(created)))
      && (forall n :: n !in ALL_COUNTER_NAMES ==> Get(r, n) == Get(counts, n) && (n in r <==> n in counts))
  {
    var r := ApplyWrites(WithTotals(counts, created), TallyWrites(created));
    assert r == CountsAfter(counts, created).counts;
    TotalsEffect(counts, created);
    forall c ensures Get(r, CountName(c)) == Get(counts, CountName(c)) + CountMatching(created, Extensions(c))
      && Get(r, SizeName(c)) == Get(counts, SizeName(c)) + Max0(SizeMatching(created, Extensions(c)))
    {
      CategoryTotalEffect(counts, created, c);
    }
    UnknownTotalEffect(counts, created);
    forall n | n !in ALL_COUNTER_NAMES ensures Get(r, n) == Get(counts, n) && (n in r <==> n in counts) {
      OtherEffect(counts, created, n);
    }
  }

  lemma TotalsEffect(counts: map<string, int>, created: seq<FileEntry>)
    ensures var r := ApplyWrites(WithTotals(counts, created), TallyWrites(created));
      && Get(r, TORRENTS) == Get(counts, TORRENTS) + 1
      && Get(r, TORRENT_FILES) == Get(counts, TORRENT_FILES) + |created|
      && Get(r, TORRENT_FILES_SIZE) == Get(counts, TORRENT_FILES_SIZE) + Max0(SumSizes(created))
  {
    var c3 := WithTotals(counts, created);
    TotalsNotTallied();
    TallyKeeps(c3, created, TORRENTS);
    TallyKeeps(c3, created, TORRENT_FILES);
    TallyKeeps(c3, created, TORRENT_FILES_SIZE);
    WithTotalsEffect(counts, created);
  }

  lemma CategoryTotalEffect(counts: map<string, int>, created: seq<FileEntry>, c: Category)
    ensures var r := ApplyWrites(WithTotals(counts, created), TallyWrites(created));
      && Get(r, CountName(c)) == Get(counts, CountName(c)) + CountMatching(created, Extensions(c))
      && Get(r, SizeName(c)) == Get(counts, SizeName(c)) + Max0(SizeMatching(created, Extensions(c)))
  {
    CategoryEffect(WithTotals(counts, created), created, c);
    CategoryNamesNotTotals(c);
    WithTotalsEffect(counts, created);
  }

  /** No category counter is one of the three totals. */
  lemma CategoryNamesNotTotals(c: Category)
    ensures NotATotalName(CountName(c)) && NotATotalName(SizeName(c))
  {
  }

  lemma UnknownTotalEffect(counts: map<string, int>, created: seq<FileEntry>)
    ensures var r := ApplyWrites(WithTotals(counts, created), TallyWrites(created));
      && Get(r, TORRENT_FILES_UNKNOWN) == Get(counts, TORRENT_FILES_UNKNOWN) + |UnknownFiles(created)|
      && Get(r, TORRENT_FILES_UNKNOWN_SIZE) == Get(counts, TORRENT_FILES_UNKNOWN_SIZE) + Max0(SumSizes(UnknownFiles(created)))
  {
    UnknownEffect(WithTotals(counts, created), created);
    NotATotal(TORRENT_FILES_UNKNOWN);
    NotATotal(TORRENT_FILES_UNKNOWN_SIZE);
    WithTotalsEffect(counts, created);
  }

  lemma OtherEffect(counts: map<string, int>, created: seq<FileEntry>, n: string)
    requires n !in ALL_COUNTER_NAMES
    ensures var r := ApplyWrites(WithTotals(counts, created), TallyWrites(created));
      Get(r, n) == Get(counts, n) && (n in r <==> n in counts)
  {
    assert n !in ALL_COUNTER_NAMES[3..];
    TallyKeeps(WithTotals(counts, created), created, n);
    NotATotal(n);
    WithTotalsEffect(counts, created);
  }

  /** The counts after the three totals of update_counts. */
  function WithTotals(counts: map<string, int>, created: seq<FileEntry>): map<string, int> {
    Bump(Bump(Bump(counts, TORRENTS, 1), TORRENT_FILES, |created|), TORRENT_FILES_SIZE, SumSizes(created))
  }

  lemma WithTotalsEffect(counts: map<string, int>, created: seq<FileEntry>)
    ensures var c3 := WithTotals(counts, created);
      && Get(c3, TORRENTS) == Get(counts, TORRENTS) + 1
      && Get(c3, TORRENT_FILES) == Get(counts, TORRENT_FILES) + |created|
      && Get(c3, TORRENT_FILES_SIZE) == Get(counts, TORRENT_FILES_SIZE) + Max0(SumSizes(created))
      && forall n :: NotATotalName(n) ==> Get(c3, n) == Get(counts, n) && (n in c3 <==> n in counts)
  {
  }

  predicate NotATotalName(n: string) {
    n != TORRENTS && n != TORRENT_FILES && n != TORRENT_FILES_SIZE
  }

  lemma NotATotal(n: string)
    requires n in ALL_COUNTER_NAMES[3..] || n !in ALL_COUNTER_NAMES
    ensures NotATotalName(n)
  {
    CounterNamesDistinct();
    if n in ALL_COUNTER_NAMES[3..] {
      var k :| 0 <= k < 16 && ALL_COUNTER_NAMES[3..][k] == n;
      assert ALL_COUNTER_NAMES[3 + k] == n;
      assert ALL_COUNTER_NAMES[0] == TORRENTS && ALL_COUNTER_NAMES[1] == TORRENT_FILES && ALL_COUNTER_NAMES[2] == TORRENT_FILES_SIZE;
    }
  }

  lemma TotalsNotTallied()
    ensures TORRENTS !in ALL_COUNTER_NAMES[3..]
    ensures TORRENT_FILES !in ALL_COUNTER_NAMES[3..]
    ensures TORRENT_FILES_SIZE !in ALL_COUNTER_NAMES[3..]
  {
    CounterNamesDistinct();
    assert ALL_COUNTER_NAMES[0] == TORRENTS && ALL_COUNTER_NAMES[1] == TORRENT_FILES && ALL_COUNTER_NAMES[2] == TORRENT_FILES_SIZE;
    forall k | 0 <= k < 16 ensures ALL_COUNTER_NAMES[3..][k] !in {TORRENTS, TORRENT_FILES, TORRENT_FILES_SIZE} {
      assert ALL_COUNTER_NAMES[3..][k] == ALL_COUNTER_NAMES[3 + k];
    }
  }


  /** Writes with no positive amount add nothing to any counter. */
  lemma {:induction false} DeltaOfNonPositive(ws: seq<Write>, name: string)
    requires forall j :: 0 <= j < |ws| ==> ws[j].add <= 0
    ensures Delta(ws, name) == 0
  {
    if ws != [] {
      DeltaOfNonPositive(ws[..|ws| - 1], name);
    }
  }

  /** With no new files every tally write carries 0. */
  lemma TallyOfNothing(j: nat)
    requires j < 16
    ensures |TallyWrites([])| == 16 && TallyWrites([])[j].add == 0
  {
    var ws := TallyWrites([]);
    if j < 14 {
      var i := j / 2;
      CategoryWritesAt([], CATEGORY_ORDER, i);
      assert ws[j] == CategoryWrites([], CATEGORY_ORDER)[j];
      assert j == 2 * i || j == 2 * i + 1;
    }
  }

  /**
   * A torrent whose files are all stored already (so none is created) moves only the
   * "torrents" counter: file counters track distinct files, not torrents.
   */
  lemma NoNewFilesCountOnlyTheTorrent(counts: map<string, int>)
    requires TORRENTS in counts
    ensures CountsAfter(counts, []).ok
    ensures Get(CountsAfter(counts, []).counts, TORRENTS) == Get(counts, TORRENTS) + 1
    ensures forall n :: n != TORRENTS ==> Get(CountsAfter(counts, []).counts, n) == Get(counts, n)
  {
    var c3 := WithTotals(counts, []);
    var ws := TallyWrites([]);
    forall j | 0 <= j < |ws| ensures ws[j].add <= 0 {
      TallyOfNothing(j);
    }
    forall n ensures Get(ApplyWrites(c3, ws), n) == Get(c3, n) {
      ApplyWritesGet(c3, ws, n);
      DeltaOfNonPositive(ws, n);
    }
  }

  /** A submission whose paths are all stored creates no file row. */
  lemma {:induction false} NothingNewWhenAllKnown(sub: seq<FileEntry>, known: set<string>)
    requires PathsOf(sub) <= known
    ensures NewEntries(sub, known) == []
  {
    if sub != [] {
      var e := sub[|sub| - 1];
      assert sub == sub[..|sub| - 1] + [e];
      PathsOfSnoc(sub[..|sub| - 1], e);
      NothingNewWhenAllKnown(sub[..|sub| - 1], known);
    }
  }

  lemma {:induction false} ApplyWritesAppend(counts: map<string, int>, a: seq<Write>, b: seq<Write>)
    ensures ApplyWrites(counts, a + b) == ApplyWrites(ApplyWrites(counts, a), b)
    decreases |b|
  {
    if b != [] {
      assert (a + b)[..|a + b| - 1] == a + b[..|b| - 1];
      ApplyWritesAppend(counts, a, b[..|b| - 1]);
    } else {
      assert a + b == a;
    }
  }

  /** Two writes in a row. */
  lemma ApplyTwo(counts: map<string, int>, w1: Write, w2: Write)
    ensures ApplyWrites(counts, [w1, w2]) == Bump(Bump(counts, w1.name, w1.add), w2.name, w2.add)
  {
    assert [w1, w2][..1] == [w1];
    assert [w1][..0] == [];
    assert ApplyWrites(counts, [w1]) == Bump(counts, w1.name, w1.add);
  }

  /** `update_counts`: the writes for a new torrent and its newly created files, in source order. */
  method UpdateCounts(db: Database, created: seq<FileEntry>) returns (ok: bool)
    modifies db`counts
    ensures CountsOutcome(db.counts, ok) == CountsAfter(old(db.counts), created)
  {
    ok := UpdateTotalTorrentCount(db, 1);
    if !ok {
      return;
    }
    UpdateFileCounts(db, TORRENT_FILES, |created|);
    var total := SumSizes(created);
    ok := UpdateTotalFilesSize(db, total);
    if !ok {
      return;
    }
    ghost var base := db.counts;
    assert base == WithTotals(old(db.counts), created);
    for i := 0 to |CATEGORY_ORDER|
      invariant db.counts == ApplyWrites(base, CategoryWrites(created, CATEGORY_ORDER[..i]))
    {
      var c := CATEGORY_ORDER[i];
      ghost var before := db.counts;
      var countAdd := FileTypeCount(created, Extensions(c));
      var sizeAdd := FileTypeSize(created, Extensions(c));
      UpdateFileCounts(db, CountName(c), countAdd);
      UpdateFilesSize(db, SizeName(c), sizeAdd);
      ghost var step := [Write(CountName(c), countAdd), Write(SizeName(c), sizeAdd)];
      ApplyTwo(before, step[0], step[1]);
      CategoryWritesStep(created, CATEGORY_ORDER, i);
      ApplyWritesAppend(base, CategoryWrites(created, CATEGORY_ORDER[..i]), step);
    }
    assert CATEGORY_ORDER[..|CATEGORY_ORDER|] == CATEGORY_ORDER;
    ghost var tallied := db.counts;
    var unknown := UnknownFiles(created);
    UpdateFileCounts(db, TORRENT_FILES_UNKNOWN, |unknown|);
    UpdateFilesSize(db, TORRENT_FILES_UNKNOWN_SIZE, SumSizes(unknown));
    ApplyTwo(tallied, UnknownWrites(created)[0], UnknownWrites(created)[1]);
    ApplyWritesAppend(base, CategoryWrites(created, CATEGORY_ORDER), UnknownWrites(created));
  }

  lemma CategoryWritesStep(files: seq<FileEntry>, cats: seq<Category>, i: nat)
    requires i < |cats|
    ensures CategoryWrites(files, cats[..i + 1]) == CategoryWrites(files, cats[..i])
      + [Write(CountName(cats[i]), CountMatching(files, Extensions(cats[i]))), Write(SizeName(cats[i]), SizeMatching(files, Extensions(cats[i])))]
  {
    assert cats[..i + 1][..i] == cats[..i];
  }

  // ---------------------------------------------------------------------------
  // create_torrent_files

  /** The paths of a list of files. */
  function PathsOf(es: seq<FileEntry>): set<string> {
    set e | e in es :: e.path
  }

  lemma PathsOfSnoc(es: seq<FileEntry>, e: FileEntry)
    ensures PathsOf(es + [e]) == PathsOf(es) + {e.path}
  {
    assert forall x :: x in es + [e] <==> x in es || x == e;
  }

  /**
   * The submitted files that become new rows: those whose path is not stored yet
   * (`known`) and not submitted earlier in the same list, in submission order.
   */
  function NewEntries(sub: seq<FileEntry>, known: set<string>): seq<FileEntry> {
    if sub == [] then []
    else
      var pre := NewEntries(sub[..|sub| - 1], known);
      var e := sub[|sub| - 1];
      if e.path in known || e.path in PathsOf(sub[..|sub| - 1]) then pre else pre + [e]
  }

  /**
   * The new rows carry exactly the submitted paths not stored before, each once,
   * and each row is a submitted entry.
   */
  lemma {:induction false} NewEntriesSpec(sub: seq<FileEntry>, known: set<string>)
    ensures var r := NewEntries(sub, known);
      && PathsOf(r) == PathsOf(sub) - known
      && (forall i, j :: 0 <= i < j < |r| ==> r[i].path != r[j].path)
      && (forall e :: e in r ==> e in sub)
  {
    if sub != [] {
      var pre := NewEntries(sub[..|sub| - 1], known);
      var e := sub[|sub| - 1];
      NewEntriesSpec(sub[..|sub| - 1], known);
      assert sub == sub[..|sub| - 1] + [e];
      PathsOfSnoc(sub[..|sub| - 1], e);
      PathsOfSnoc(pre, e);
      if !(e.path in known || e.path in PathsOf(sub[..|sub| - 1])) {
        var r := pre + [e];
        forall i, j | 0 <= i < j < |r| ensures r[i].path != r[j].path {
          if j == |r| - 1 {
            assert r[i] in pre;
          }
        }
      }
    }
  }

  /** Entry `i` is the first entry of `sub` with its path. */
  predicate FirstWithPath(sub: seq<FileEntry>, i: int)
    requires 0 <= i < |sub|
  {
    forall j :: 0 <= j < i ==> sub[j].path != sub[i].path
  }

  /**
   * A path submitted several times becomes one row, built from its first occurrence:
   * the new rows are exactly the first occurrences of the paths not stored before.
   */
  lemma {:induction false} NewEntriesFirst(sub: seq<FileEntry>, known: set<string>)
    ensures forall e :: e in NewEntries(sub, known) ==>
      e.path !in known && exists i :: 0 <= i < |sub| && sub[i] == e && FirstWithPath(sub, i)
    ensures forall i :: 0 <= i < |sub| && sub[i].path !in known && FirstWithPath(sub, i) ==>
      sub[i] in NewEntries(sub, known)
  {
    if sub != [] {
      var n := |sub| - 1;
      var init := sub[..n];
      var e := sub[n];
      NewEntriesFirst(init, known);
      var pre := NewEntries(init, known);
      forall i | 0 <= i < n
        ensures FirstWithPath(sub, i) == FirstWithPath(init, i)
      {
        assert forall j :: 0 <= j <= i ==> sub[j] == init[j];
      }
      forall x | x in NewEntries(sub, known)
        ensures x.path !in known && exists i :: 0 <= i < |sub| && sub[i] == x && FirstWithPath(sub, i)
      {
        if x in pre {
          var i :| 0 <= i < n && init[i] == x && FirstWithPath(init, i);
          assert sub[i] == x;
        } else {
          assert x == e && e.path !in PathsOf(init);
          forall j | 0 <= j < n ensures sub[j].path != e.path {
            assert init[j] in init;
          }
          assert FirstWithPath(sub, n);
        }
      }
      forall i | 0 <= i < |sub| && sub[i].path !in known && FirstWithPath(sub, i)
        ensures sub[i] in NewEntries(sub, known)
      {
        if i < n {
          assert init[i] == sub[i];
        } else {
          forall x | x in init ensures x.path != e.path {
            var j :| 0 <= j < n && init[j] == x;
            assert sub[j] == x;
          }
          assert e.path !in PathsOf(init);
        }
      }
    }
  }

  /** `files` with rows for `es` added under consecutive ids from `start`. */
  function AddRows(files: map<nat, TorrentFile>, start: nat, es: seq<FileEntry>): map<nat, TorrentFile> {
    if es == [] then files
    else
      var n := |es| - 1;
      AddRows(files, start, es[..n])[start + n := TorrentFile(es[n].path, es[n].size)]
  }

  /**
   * When every old id is below `start`, the old rows stay as they were and row `start + j`
   * holds entry `j`; there are no other rows.
   */
  lemma {:induction false} AddRowsSpec(files: map<nat, TorrentFile>, start: nat, es: seq<FileEntry>)
    requires forall id :: id in files ==> id < start
    ensures var m := AddRows(files, start, es);
      && (forall j :: j in m <==> j in files || start <= j < start + |es|)
      && (forall j :: j in files ==> m[j] == files[j])
      && (forall j :: start <= j < start + |es| ==> m[j] == TorrentFile(es[j - start].path, es[j - start].size))
  {
    if es != [] {
      AddRowsSpec(files, start, es[..|es| - 1]);
    }
  }

  /** One more row under the next id extends the rows by one entry. */
  lemma AddRowsSnoc(files: map<nat, TorrentFile>, start: nat, es: seq<FileEntry>, e: FileEntry,
                    before: map<nat, TorrentFile>, id: nat)
    requires before == AddRows(files, start, es) && id == start + |es|
    ensures before[id := TorrentFile(e.path, e.size)] == AddRows(files, start, es + [e])
  {
    assert (es + [e])[..|es|] == es;
  }

  /** Whether some row of `files` with path `p` is linked to torrent `tid` in `links`. */
  ghost predicate LinkedIn(links: seq<Link>, files: map<nat, TorrentFile>, tid: nat, p: string) {
    exists k :: 0 <= k < |links| && links[k].0 == tid && links[k].1 in files && files[links[k].1].path == p
  }

  /** `g` keeps every row of `f`. */
  ghost predicate KeepsRows(f: map<nat, TorrentFile>, g: map<nat, TorrentFile>) {
    forall id :: id in f ==> id in g && g[id] == f[id]
  }

  /** A path stays linked when links are only appended and rows only added. */
  lemma LinkedInGrows(a: seq<Link>, b: seq<Link>, f: map<nat, TorrentFile>, g: map<nat, TorrentFile>, tid: nat, p: string)
    requires AppendsFor(a, b, tid) && KeepsRows(f, g) && LinkedIn(a, f, tid, p)
    ensures LinkedIn(b, g, tid, p)
  {
    var k :| 0 <= k < |a| && a[k].0 == tid && a[k].1 in f && f[a[k].1].path == p;
    assert b[k] == b[..|a|][k];
  }

  /**
   * What create_torrent_files does for torrent `tid`: new rows, under fresh ids, for the
   * submitted paths not yet stored; old rows untouched; links only appended, each from `tid`
   * to the row of a submitted path; afterwards every submitted path has a row linked to `tid`.
   */
  twostate predicate FilesResolved(db: Database, tid: nat, sub: seq<FileEntry>, created: seq<FileEntry>)
    reads db`files, db`nextFileId, db`fileLinks
  {
    FilesAfter(old(db.files), old(db.nextFileId), old(db.fileLinks), old(db.PathSet()),
      db.files, db.nextFileId, db.fileLinks, db.PathSet(), tid, sub, created)
  }

  /** FilesResolved, stated on the tables before (`F0`, `N0`, `L0`, `P0`) and after. */
  ghost predicate FilesAfter(F0: map<nat, TorrentFile>, N0: nat, L0: seq<Link>, P0: set<string>,
                             files: map<nat, TorrentFile>, next: nat, links: seq<Link>, paths: set<string>,
                             tid: nat, sub: seq<FileEntry>, created: seq<FileEntry>)
  {
    && created == NewEntries(sub, P0)
    && files == AddRows(F0, N0, created)
    && next == N0 + |created|
    && paths == P0 + PathsOf(sub)
    && AppendsFor(L0, links, tid)
    && AppendedTo(L0, links, files, PathsOf(sub))
    && (forall e :: e in sub ==> LinkedIn(links, files, tid, e.path))
  }

  /** One iteration of create_torrent_files: a new row linked to `tid`, or a link to the existing row. */
  method ResolveFile(db: Database, tid: nat, e: FileEntry) returns (isNew: bool)
    requires db.Valid() && tid in db.torrents
    modifies db`files, db`fileLinks, db`nextFileId
    ensures db.Valid()
    ensures isNew <==> e.path !in old(db.PathSet())
    ensures isNew ==> (db.files == old(db.files)[old(db.nextFileId) := TorrentFile(e.path, e.size)]
      && db.nextFileId == old(db.nextFileId) + 1)
    ensures !isNew ==> db.files == old(db.files) && db.nextFileId == old(db.nextFileId)
    ensures db.PathSet() == old(db.PathSet()) + {e.path}
    ensures AppendsFor(old(db.fileLinks), db.fileLinks, tid)
    ensures AppendedTo(old(db.fileLinks), db.fileLinks, db.files, {e.path})
    ensures LinkedIn(db.fileLinks, db.files, tid, e.path)
  {
    var found := db.FindFile(e.path);
    match found {
      case None =>
        isNew := true;
        var fid := AddFileRow(db, e);
        LinkFile(db, tid, fid);
        AppendedLink(old(db.fileLinks), db.fileLinks, db.files, tid, fid);
      case Some(fid) =>
        isNew := false;
        assert e.path in db.PathSet();
        assert db.PathSet() == old(db.PathSet()) + {e.path};
        LinkFile(db, tid, fid);
        AppendedLink(old(db.fileLinks), db.fileLinks, db.files, tid, fid);
    }
  }

  /** A new TorrentFile row under the next id. */
  method AddFileRow(db: Database, e: FileEntry) returns (fid: nat)
    requires db.Valid() && e.path !in db.PathSet()
    modifies db`files, db`nextFileId
    ensures db.Valid()
    ensures fid == old(db.nextFileId) && db.nextFileId == fid + 1
    ensures db.files == old(db.files)[fid := TorrentFile(e.path, e.size)]
    ensures db.PathSet() == old(db.PathSet()) + {e.path}
  {
    fid := db.nextFileId;
    db.files := db.files[fid := TorrentFile(e.path, e.size)];
    db.nextFileId := fid + 1;
    forall p | p in db.PathSet() ensures p in old(db.PathSet()) + {e.path} {
      var id :| id in db.files && db.files[id].path == p;
      if id != fid {
        assert id in old(db.files);
      }
    }
    forall p | p in old(db.PathSet()) ensures p in db.PathSet() {
      var id :| id in old(db.files) && old(db.files)[id].path == p;
      assert db.files[id] == old(db.files)[id];
    }
    assert db.files[fid].path == e.path;
  }

  /** Link file `fid` to torrent `tid` unless that link row exists already. */
  method LinkFile(db: Database, tid: nat, fid: nat)
    requires db.Valid() && tid in db.torrents && fid in db.files
    modifies db`fileLinks
    ensures db.Valid()
    ensures AppendsFor(old(db.fileLinks), db.fileLinks, tid)
    ensures |db.fileLinks| <= |old(db.fileLinks)| + 1
    ensures db.fileLinks == if (tid, fid) in old(db.fileLinks) then old(db.fileLinks) else old(db.fileLinks) + [(tid, fid)]
    ensures (tid, fid) in db.fileLinks
    ensures LinkedIn(db.fileLinks, db.files, tid, db.files[fid].path)
  {
    ghost var before := db.fileLinks;
    if (tid, fid) !in db.fileLinks {
      db.fileLinks := db.fileLinks + [(tid, fid)];
      assert db.fileLinks[|before|] == (tid, fid);
    }
    var k :| 0 <= k < |db.fileLinks| && db.fileLinks[k] == (tid, fid);
    assert db.fileLinks[..|before|] == before;
  }

  /** `create_torrent_files`: resolve each submitted path to a new or existing row and link it. */
  method CreateTorrentFiles(db: Database, tid: nat, sub: seq<FileEntry>) returns (created: seq<FileEntry>)
    requires db.Valid() && tid in db.torrents
    modifies db`files, db`fileLinks, db`nextFileId
    ensures db.Valid()
    ensures FilesResolved(db, tid, sub, created)
  {
    ghost var P0, F0, N0, L0 := db.PathSet(), db.files, db.nextFileId, db.fileLinks;
    created := [];
    for i := 0 to |sub|
      invariant db.Valid() && tid in db.torrents
      invariant db.torrents == old(db.torrents)
      invariant Resolved(db.files, db.fileLinks, db.nextFileId, db.PathSet(), tid, sub[..i], P0, F0, N0, L0, created)
    {
      created := ResolveNext(db, tid, sub, i, P0, F0, N0, L0, created);
    }
    assert sub[..|sub|] == sub;
  }

  /** The tables of create_torrent_files once the entries `done` are resolved. */
  ghost predicate Resolved(files: map<nat, TorrentFile>, links: seq<Link>, next: nat, paths: set<string>,
                           tid: nat, done: seq<FileEntry>, P0: set<string>,
                           F0: map<nat, TorrentFile>, N0: nat, L0: seq<Link>, created: seq<FileEntry>)
  {
    && RowsResolved(files, next, paths, done, P0, F0, N0, created)
    && LinksResolved(files, links, tid, done, L0)
  }

  /** The file rows once `done` is resolved: one new row per new path, in order. */
  ghost predicate RowsResolved(files: map<nat, TorrentFile>, next: nat, paths: set<string>, done: seq<FileEntry>,
                               P0: set<string>, F0: map<nat, TorrentFile>, N0: nat, created: seq<FileEntry>)
  {
    && (forall id :: id in F0 ==> id < N0)
    && created == NewEntries(done, P0)
    && files == AddRows(F0, N0, created)
    && next == N0 + |created|
    && paths == P0 + PathsOf(done)
  }

  /** The link rows once `done` is resolved: appended for `tid`, to resolved paths, covering them all. */
  ghost predicate LinksResolved(files: map<nat, TorrentFile>, links: seq<Link>, tid: nat, done: seq<FileEntry>,
                                L0: seq<Link>)
  {
    && AppendsFor(L0, links, tid)
    && AppendedTo(L0, links, files, PathsOf(done))
    && (forall e :: e in done ==> LinkedIn(links, files, tid, e.path))
  }

  /** The body of the loop in create_torrent_files, for entry `i`. */
  method ResolveNext(db: Database, tid: nat, sub: seq<FileEntry>, i: nat, ghost P0: set<string>,
                     ghost F0: map<nat, TorrentFile>, ghost N0: nat, ghost L0: seq<Link>, created: seq<FileEntry>)
    returns (created': seq<FileEntry>)
    requires i < |sub| && db.Valid() && tid in db.torrents
    requires Resolved(db.files, db.fileLinks, db.nextFileId, db.PathSet(), tid, sub[..i], P0, F0, N0, L0, created)
    modifies db`files, db`fileLinks, db`nextFileId
    ensures db.Valid()
    ensures Resolved(db.files, db.fileLinks, db.nextFileId, db.PathSet(), tid, sub[..i + 1], P0, F0, N0, L0, created')
  {
    ghost var links, files, next, paths := db.fileLinks, db.files, db.nextFileId, db.PathSet();
    var isNew := ResolveFile(db, tid, sub[i]);
    created' := if isNew then created + [sub[i]] else created;
    ResolvedStep(files, links, next, paths, db.files, db.fileLinks, db.nextFileId, db.PathSet(),
      isNew, tid, sub, i, P0, F0, N0, L0, created);
  }

  /** One resolved entry more, stated on the tables before and after it. */
  lemma ResolvedStep(files: map<nat, TorrentFile>, links: seq<Link>, next: nat, paths: set<string>,
                     files': map<nat, TorrentFile>, links': seq<Link>, next': nat, paths': set<string>,
                     isNew: bool, tid: nat, sub: seq<FileEntry>, i: nat, P0: set<string>,
                     F0: map<nat, TorrentFile>, N0: nat, L0: seq<Link>, created: seq<FileEntry>)
    requires i < |sub| && (forall id :: id in files ==> id < next)
    requires Resolved(files, links, next, paths, tid, sub[..i], P0, F0, N0, L0, created)
    requires isNew <==> sub[i].path !in paths
    requires isNew ==> files' == files[next := TorrentFile(sub[i].path, sub[i].size)] && next' == next + 1
    requires !isNew ==> files' == files && next' == next
    requires paths' == paths + {sub[i].path}
    requires AppendsFor(links, links', tid)
    requires AppendedTo(links, links', files', {sub[i].path})
    requires LinkedIn(links', files', tid, sub[i].path)
    ensures Resolved(files', links', next', paths', tid, sub[..i + 1], P0, F0, N0, L0,
      if isNew then created + [sub[i]] else created)
  {
    RowsStep(files, next, paths, files', next', paths', isNew, sub, i, P0, F0, N0, created);
    LinksStep(files, links, files', links', next, tid, sub, i, L0);
  }

  lemma RowsStep(files: map<nat, TorrentFile>, next: nat, paths: set<string>,
                 files': map<nat, TorrentFile>, next': nat, paths': set<string>,
                 isNew: bool, sub: seq<FileEntry>, i: nat, P0: set<string>,
                 F0: map<nat, TorrentFile>, N0: nat, created: seq<FileEntry>)
    requires i < |sub|
    requires RowsResolved(files, next, paths, sub[..i], P0, F0, N0, created)
    requires isNew <==> sub[i].path !in paths
    requires isNew ==> files' == files[next := TorrentFile(sub[i].path, sub[i].size)] && next' == next + 1
    requires !isNew ==> files' == files && next' == next
    requires paths' == paths + {sub[i].path}
    ensures RowsResolved(files', next', paths', sub[..i + 1], P0, F0, N0, if isNew then created + [sub[i]] else created)
  {
    var e := sub[i];
    NewEntriesStep(sub, i, P0);
    assert sub[..i + 1] == sub[..i] + [e];
    PathsOfSnoc(sub[..i], e);
    if isNew {
      AddRowsSnoc(F0, N0, created, e, files, next);
    }
  }

  lemma LinksStep(files: map<nat, TorrentFile>, links: seq<Link>, files': map<nat, TorrentFile>, links': seq<Link>,
                  next: nat, tid: nat, sub: seq<FileEntry>, i: nat, L0: seq<Link>)
    requires i < |sub| && (forall id :: id in files ==> id < next)
    requires files' == files || files' == files[next := TorrentFile(sub[i].path, sub[i].size)]
    requires LinksResolved(files, links, tid, sub[..i], L0)
    requires AppendsFor(links, links', tid)
    requires AppendedTo(links, links', files', {sub[i].path})
    requires LinkedIn(links', files', tid, sub[i].path)
    ensures LinksResolved(files', links', tid, sub[..i + 1], L0)
  {
    assert sub[..i + 1] == sub[..i] + [sub[i]];
    PathsOfSnoc(sub[..i], sub[i]);
    AppendsForTrans(L0, links, links', tid);
    assert KeepsRows(files, files');
    AppendedStep(L0, links, links', files, files', PathsOf(sub[..i]), sub[i].path);
    LinkedStep(links, links', files, files', next, tid, sub, i);
  }

  /** The rows appended so far point at the resolved paths, the new one included. */
  lemma AppendedStep(L0: seq<Link>, links: seq<Link>, links': seq<Link>,
                     files: map<nat, TorrentFile>, files': map<nat, TorrentFile>, paths: set<string>, p: string)
    requires |L0| <= |links| <= |links'| && links'[..|links|] == links
    requires KeepsRows(files, files')
    requires AppendedTo(L0, links, files, paths)
    requires AppendedTo(links, links', files', {p})
    ensures AppendedTo(L0, links', files', paths + {p})
  {
    forall k | |L0| <= k < |links'|
      ensures links'[k].1 in files' && files'[links'[k].1].path in paths + {p}
    {
      if k < |links| {
        assert links'[k] == links'[..|links|][k];
      }
    }
  }

  /** The entries resolved before stay linked, and the new one is linked. */
  lemma LinkedStep(links: seq<Link>, links': seq<Link>, files: map<nat, TorrentFile>, files': map<nat, TorrentFile>,
                   next: nat, tid: nat, sub: seq<FileEntry>, i: nat)
    requires i < |sub| && (forall id :: id in files ==> id < next)
    requires files' == files || files' == files[next := TorrentFile(sub[i].path, sub[i].size)]
    requires AppendsFor(links, links', tid)
    requires LinkedIn(links', files', tid, sub[i].path)
    requires forall e :: e in sub[..i] ==> LinkedIn(links, files, tid, e.path)
    ensures forall e :: e in sub[..i + 1] ==> LinkedIn(links', files', tid, e.path)
  {
    assert KeepsRows(files, files');
    forall e | e in sub[..i + 1] ensures LinkedIn(links', files', tid, e.path) {
      assert sub[..i + 1] == sub[..i] + [sub[i]];
      if e != sub[i] {
        LinkedInGrows(links, links', files, files', tid, e.path);
      }
    }
  }


  /** Every row appended after `links` points at a stored file whose path is one of `paths`. */
  predicate AppendedTo(links: seq<Link>, now: seq<Link>, files: map<nat, TorrentFile>, paths: set<string>) {
    forall k :: |links| <= k < |now| ==> now[k].1 in files && files[now[k].1].path in paths
  }

  /** The guarded append of LinkFile adds a link to that file's row only. */
  lemma AppendedLink(links: seq<Link>, now: seq<Link>, files: map<nat, TorrentFile>, tid: nat, fid: nat)
    requires fid in files
    requires now == if (tid, fid) in links then links else links + [(tid, fid)]
    ensures AppendedTo(links, now, files, {files[fid].path})
  {
  }

  /** `now` is `links` with rows for torrent `tid` appended. */
  predicate AppendsFor(links: seq<Link>, now: seq<Link>, tid: nat) {
    && |links| <= |now|
    && now[..|links|] == links
    && forall k :: |links| <= k < |now| ==> now[k].0 == tid
  }

  lemma AppendsForTrans(a: seq<Link>, b: seq<Link>, c: seq<Link>, tid: nat)
    requires AppendsFor(a, b, tid) && AppendsFor(b, c, tid)
    ensures AppendsFor(a, c, tid)
  {
    assert c[..|a|] == c[..|b|][..|a|];
    forall k | |a| <= k < |c| ensures c[k].0 == tid {
      if k < |b| {
        assert c[k] == c[..|b|][k];
      }
    }
  }


  lemma NewEntriesStep(sub: seq<FileEntry>, i: nat, known: set<string>)
    requires i < |sub|
    ensures NewEntries(sub[..i + 1], known) ==
      if sub[i].path in known + PathsOf(sub[..i]) then NewEntries(sub[..i], known)
      else NewEntries(sub[..i], known) + [sub[i]]
  {
    assert sub[..i + 1][..i] == sub[..i];
  }

  // ---------------------------------------------------------------------------
  // add_torrent

  /** A torrent seen again: one more sighting, updated now, nothing else changes. */
  function Resight(t: Torrent, now: Timestamp): (r: Torrent)
    ensures r.seenCount == t.seenCount + 1 && r.updatedAt == Some(now)
    ensures r.(seenCount := t.seenCount, updatedAt := t.updatedAt) == t
  {
    t.(seenCount := t.seenCount + 1, updatedAt := Some(now))
  }

  /** The crawler link rows after `crawlers.append` guarded by `crawler not in db_torrent.crawlers`. */
  function WithLink(links: seq<Link>, crawler: Option<nat>, tid: nat): seq<Link> {
    if crawler.None? || (crawler.value, tid) in links then links else links + [(crawler.value, tid)]
  }

  /** The guard makes the link idempotent and keeps the link table free of duplicates. */
  lemma WithLinkSpec(links: seq<Link>, crawler: Option<nat>, tid: nat)
    ensures crawler.Some? ==> (crawler.value, tid) in WithLink(links, crawler, tid)
    ensures WithLink(WithLink(links, crawler, tid), crawler, tid) == WithLink(links, crawler, tid)
    ensures NoDup(links) ==> NoDup(WithLink(links, crawler, tid))
    ensures forall l :: l in WithLink(links, crawler, tid) <==> l in links || (crawler.Some? && l == (crawler.value, tid))
  {
    var r := WithLink(links, crawler, tid);
    if crawler.Some? && (crawler.value, tid) !in links {
      assert r[|links|] == (crawler.value, tid);
    }
  }

  /**
   * What add_torrent does. A known info hash: that torrent is resighted and nothing else
   * changes but the crawler link. A new one: a torrent row with the column defaults under
   * the next id, its files resolved and linked, the counters updated for the newly
   * created files only; the crawler link is written by the final commit, which is not
   * reached when update_counts raises (`ok` false).
   */
  twostate predicate Ingested(db: Database, sub: Submission, crawler: Option<nat>, now: Timestamp, ok: bool)
    reads db
  {
    match old(db.TorrentWithHash(sub.infoHash))
    case Some(tid) => ok && Resighted(db, tid, crawler, now)
    case None => Created(db, sub, crawler, now, ok)
  }

  /** The known-hash branch of add_torrent for stored torrent `tid`. */
  twostate predicate Resighted(db: Database, tid: nat, crawler: Option<nat>, now: Timestamp)
    reads db
  {
    && tid in old(db.torrents)
    && db.torrents == old(db.torrents)[tid := Resight(old(db.torrents)[tid], now)]
    && db.crawlerLinks == WithLink(old(db.crawlerLinks), crawler, tid)
    && db.nextTorrentId == old(db.nextTorrentId)
    && db.files == old(db.files) && db.nextFileId == old(db.nextFileId)
    && db.fileLinks == old(db.fileLinks)
    && db.counts == old(db.counts)
    && db.crawlers == old(db.crawlers) && db.nextCrawlerId == old(db.nextCrawlerId)
  }

  /** The new-hash branch of add_torrent. */
  twostate predicate Created(db: Database, sub: Submission, crawler: Option<nat>, now: Timestamp, ok: bool)
    reads db
  {
    var tid := old(db.nextTorrentId);
    var created := NewEntries(sub.files, old(db.PathSet()));
    && db.torrents == old(db.torrents)[tid := NewTorrent(sub.name, sub.infoHash, sub.size, now)]
    && db.nextTorrentId == tid + 1
    && FilesResolved(db, tid, sub.files, created)
    && CountsOutcome(db.counts, ok) == CountsAfter(old(db.counts), created)
    && db.crawlerLinks == (if ok then WithLink(old(db.crawlerLinks), crawler, tid) else old(db.crawlerLinks))
    && db.crawlers == old(db.crawlers) && db.nextCrawlerId == old(db.nextCrawlerId)
  }

  /** `add_torrent`. */
  method AddTorrent(db: Database, sub: Submission, crawler: Option<nat>, now: Timestamp) returns (ok: bool)
    requires db.Valid() && (crawler.Some? ==> crawler.value in db.crawlers)
    modifies db
    ensures db.Valid()
    ensures Ingested(db, sub, crawler, now, ok)
    ensures db.TorrentWithHash(sub.infoHash).Some?
  {
    var found := db.FindTorrent(sub.infoHash);
    match found {
      case None =>
        ok := AddNewTorrent(db, sub, crawler, now);
        assert db.torrents[old(db.nextTorrentId)].infoHash == sub.infoHash;
      case Some(tid) =>
        AddKnownTorrent(db, tid, crawler, now);
        ok := true;
        assert db.torrents[tid].infoHash == sub.infoHash;
    }
  }

  /** add_torrent for a hash not stored yet. */
  method AddNewTorrent(db: Database, sub: Submission, crawler: Option<nat>, now: Timestamp) returns (ok: bool)
    requires db.Valid() && (crawler.Some? ==> crawler.value in db.crawlers)
    requires db.TorrentWithHash(sub.infoHash).None?
    modifies db`torrents, db`nextTorrentId, db`files, db`fileLinks, db`nextFileId, db`counts, db`crawlerLinks
    ensures db.Valid()
    ensures Created(db, sub, crawler, now, ok)
  {
    var tid, created := StoreNewTorrent(db, sub, now);
    ghost var files, next, links, paths := db.files, db.nextFileId, db.fileLinks, db.PathSet();
    assert FilesAfter(old(db.files), old(db.nextFileId), old(db.fileLinks), old(db.PathSet()),
      files, next, links, paths, tid, sub.files, created);
    ok := CountAndLink(db, created, crawler, tid);
    assert db.files == files && db.nextFileId == next && db.fileLinks == links && db.PathSet() == paths;
    assert FilesResolved(db, tid, sub.files, created);
  }

  /** update_counts, then the final commit with the crawler link, which a raise skips. */
  method CountAndLink(db: Database, created: seq<FileEntry>, crawler: Option<nat>, tid: nat) returns (ok: bool)
    requires db.Valid() && tid in db.torrents && (crawler.Some? ==> crawler.value in db.crawlers)
    modifies db`counts, db`crawlerLinks
    ensures db.Valid()
    ensures CountsOutcome(db.counts, ok) == CountsAfter(old(db.counts), created)
    ensures db.crawlerLinks == if ok then WithLink(old(db.crawlerLinks), crawler, tid) else old(db.crawlerLinks)
  {
    ok := UpdateCounts(db, created);
    if ok {
      LinkCrawler(db, crawler, tid);
    }
  }

  /** The new Torrent row, then its files: the part of add_torrent before the counters. */
  method StoreNewTorrent(db: Database, sub: Submission, now: Timestamp) returns (tid: nat, created: seq<FileEntry>)
    requires db.Valid() && db.TorrentWithHash(sub.infoHash).None?
    modifies db`torrents, db`nextTorrentId, db`files, db`fileLinks, db`nextFileId
    ensures db.Valid()
    ensures tid == old(db.nextTorrentId) && db.nextTorrentId == tid + 1
    ensures db.torrents == old(db.torrents)[tid := NewTorrent(sub.name, sub.infoHash, sub.size, now)]
    ensures FilesResolved(db, tid, sub.files, created)
  {
    tid := InsertTorrent(db, sub, now);
    created := CreateTorrentFiles(db, tid, sub.files);
  }

  /** add_torrent for the stored torrent `tid`. */
  method AddKnownTorrent(db: Database, tid: nat, crawler: Option<nat>, now: Timestamp)
    requires db.Valid() && tid in db.torrents && (crawler.Some? ==> crawler.value in db.crawlers)
    modifies db
    ensures db.Valid()
    ensures Resighted(db, tid, crawler, now)
  {
    ResightTorrent(db, tid, now);
    LinkCrawler(db, crawler, tid);
  }

  /** A new Torrent row under the next id, for a hash not stored yet. */
  method InsertTorrent(db: Database, sub: Submission, now: Timestamp) returns (tid: nat)
    requires db.Valid() && db.TorrentWithHash(sub.infoHash).None?
    modifies db`torrents, db`nextTorrentId
    ensures db.Valid()
    ensures tid == old(db.nextTorrentId) && db.nextTorrentId == tid + 1
    ensures db.torrents == old(db.torrents)[tid := NewTorrent(sub.name, sub.infoHash, sub.size, now)]
  {
    tid := db.nextTorrentId;
    db.torrents := db.torrents[tid := NewTorrent(sub.name, sub.infoHash, sub.size, now)];
    db.nextTorrentId := tid + 1;
  }

  /** `seen_count += 1; updated_at = now` on a stored torrent. */
  method ResightTorrent(db: Database, tid: nat, now: Timestamp)
    requires db.Valid() && tid in db.torrents
    modifies db`torrents
    ensures db.Valid()
    ensures db.torrents == old(db.torrents)[tid := Resight(old(db.torrents)[tid], now)]
  {
    db.torrents := db.torrents[tid := Resight(db.torrents[tid], now)];
  }

  /** Append the crawler link unless it is there already. */
  method LinkCrawler(db: Database, crawler: Option<nat>, tid: nat)
    requires db.Valid() && tid in db.torrents && (crawler.Some? ==> crawler.value in db.crawlers)
    modifies db`crawlerLinks
    ensures db.Valid()
    ensures db.crawlerLinks == WithLink(old(db.crawlerLinks), crawler, tid)
  {
    WithLinkSpec(db.crawlerLinks, crawler, tid);
    if crawler.Some? && (crawler.value, tid) !in db.crawlerLinks {
      db.crawlerLinks := db.crawlerLinks + [(crawler.value, tid)];
    }
  }

  // ---------------------------------------------------------------------------
  // api_add_torrent

  /** The outcome of the credential check. */
  datatype Auth = UnknownCrawler | WrongToken(id: nat) | Authenticated(id: nat)

  /** The crawler named in the request, and whether its stored token equals the one sent. */
  ghost function Authenticate(db: Database, name: Option<string>, token: Option<string>): (a: Auth)
    reads db
    ensures !a.UnknownCrawler? ==> a.id in db.crawlers && name == Some(db.crawlers[a.id].name)
    ensures a.Authenticated? ==> token == Some(db.crawlers[a.id].token)
    ensures a.WrongToken? ==> token != Some(db.crawlers[a.id].token)
    ensures a.UnknownCrawler? ==> forall id :: id in db.crawlers ==> name != Some(db.crawlers[id].name)
  {
    if name.None? then UnknownCrawler
    else match CrawlerNamed(db.crawlers, name.value)
      case None => UnknownCrawler
      case Some(id) => if token == Some(db.crawlers[id].token) then Authenticated(id) else WrongToken(id)
  }

  /** Only the failed-authentication count of crawler `id` went up by one. */
  twostate predicate FailureRecorded(db: Database, id: nat)
    reads db
  {
    && id in old(db.crawlers)
    && db.crawlers == old(db.crawlers)[id := old(db.crawlers)[id].(failedAuthenticationCount := old(db.crawlers)[id].failedAuthenticationCount + 1)]
    && db.nextCrawlerId == old(db.nextCrawlerId)
    && db.torrents == old(db.torrents) && db.nextTorrentId == old(db.nextTorrentId)
    && db.files == old(db.files) && db.nextFileId == old(db.nextFileId)
    && db.fileLinks == old(db.fileLinks) && db.crawlerLinks == old(db.crawlerLinks)
    && db.counts == old(db.counts)
  }

  /**
   * `api_add_torrent`. With authentication off, the torrent is ingested anonymously.
   * With it on, an unknown crawler name is refused with no write, a wrong token is refused
   * and counted against the crawler, and a matching token ingests the torrent on behalf of
   * that crawler. `ok` is false when add_torrent raised; the endpoint then sends no response.
   */
  method ApiAddTorrent(db: Database, authEnabled: bool, req: Request, now: Timestamp) returns (rsp: Response, ok: bool)
    requires db.Valid()
    modifies db
    ensures db.Valid()
    ensures !authEnabled ==> rsp == Response(false, "") && Ingested(db, req.torrent, None, now, ok)
    ensures authEnabled ==>
      match old(Authenticate(db, req.name, req.token))
      case UnknownCrawler => ok && rsp == Response(true, INVALID_CREDENTIALS) && unchanged(db)
      case WrongToken(id) => ok && rsp == Response(true, INVALID_CREDENTIALS) && FailureRecorded(db, id)
      case Authenticated(id) => rsp == Response(false, "") && Ingested(db, req.torrent, Some(id), now, ok)
  {
    rsp := Response(false, "");
    ok := true;
    if !authEnabled {
      ok := AddTorrent(db, req.torrent, None, now);
      return;
    }
    var crawler: Option<nat> := None;
    if req.name.Some? {
      crawler := db.FindCrawler(req.name.value);
    }
    match crawler {
      case None =>
        rsp := Response(true, INVALID_CREDENTIALS);
      case Some(id) =>
        if req.token == Some(db.crawlers[id].token) {
          ok := AddTorrent(db, req.torrent, Some(id), now);
        } else {
          RecordFailedAuthentication(db, id);
          rsp := Response(true, INVALID_CREDENTIALS);
        }
    }
  }

  /** `crawler.failed_authentication_count += 1`. */
  method RecordFailedAuthentication(db: Database, id: nat)
    requires db.Valid() && id in db.crawlers
    modifies db`crawlers
    ensures db.Valid()
    ensures FailureRecorded(db, id)
  {
    var c := db.crawlers[id];
    db.crawlers := db.crawlers[id := c.(failedAuthenticationCount := c.failedAuthenticationCount + 1)];
  }
}
