/**
 * The counter store and the extension tables (db/count.py).
 * Counts rows are a map from counter name to value; the update functions are
 * methods on the database, specified by the pure `Bump`.
 */
module CountDb {
  import opened Text
  import opened Schema

  // The seven extension tables, in source order (rows of twelve).
  const VIDEO_EXTENSIONS: seq<string> :=
    [".mp4", ".avi", ".mkv", ".mov", ".wmv", ".flv", ".webm", ".m4v", ".3gp", ".mpg", ".mpeg", ".ts"]
    + [".vob", ".ogv", ".hevc", ".h264", ".divx", ".xvid", ".m2ts", ".mts", ".mxf", ".ogm", ".rm", ".rmvb"]
    + [".asf"]

  const AUDIO_EXTENSIONS: seq<string> :=
    [".mp3", ".flac", ".wav", ".aac", ".ogg", ".wma", ".m4a", ".opus", ".aiff", ".ape", ".ac3", ".dts"]
    + [".alac", ".mka", ".mp2", ".mpa", ".aif", ".caf", ".amr", ".midi", ".mid", ".oga"]

  const IMAGE_EXTENSIONS: seq<string> :=
    [".jpg", ".jpeg", ".png", ".gif", ".bmp", ".webp", ".svg", ".tiff", ".tga", ".ico", ".psd", ".raw"]
    + [".heic", ".heif", ".avif", ".jp2", ".j2k", ".cr2", ".nef", ".arw", ".orf", ".rw2", ".dng"]

  const DOCUMENT_EXTENSIONS: seq<string> :=
    [".pdf", ".doc", ".docx", ".txt", ".rtf", ".odt", ".xls", ".xlsx", ".ppt", ".pptx", ".epub", ".mobi"]
    + [".azw", ".azw3", ".md", ".csv", ".tsv", ".tex", ".odp", ".ods", ".odg", ".key", ".numbers", ".pages"]

  const ARCHIVE_EXTENSIONS: seq<string> :=
    [".zip", ".rar", ".7z", ".tar", ".gz", ".bz2", ".xz", ".tar.gz", ".tar.bz2", ".tar.xz", ".iso", ".dmg"]
    + [".zst", ".lz", ".lzma", ".lzh", ".cab", ".arj", ".r00", ".r01", ".part1.rar"]

  const EXECUTABLE_EXTENSIONS: seq<string> :=
    [".exe", ".msi", ".deb", ".rpm", ".dmg", ".pkg", ".app", ".apk", ".ipa", ".bin", ".run", ".appimage"]
    + [".bat", ".cmd", ".ps1", ".sh", ".bash", ".ksh", ".csh", ".vbs", ".jar", ".com"]

  const CODE_EXTENSIONS: seq<string> :=
    [".py", ".js", ".html", ".css", ".java", ".cpp", ".c", ".php", ".rb", ".go", ".rs", ".ts"]
    + [".jsx", ".tsx", ".vue", ".json", ".xml", ".yml", ".yaml", ".sh", ".bat", ".ps1", ".ini", ".conf"]
    + [".toml", ".cfg", ".proto", ".sql", ".kt", ".kts", ".scala", ".hs", ".lua", ".dart", ".r", ".jl"]
    + [".m", ".mm", ".h", ".hpp", ".hxx", ".cc", ".svelte", ".astro", ".ejs", ".handlebars", ".hbs", ".mustache"]
    + [".pug", ".sass", ".scss", ".less", ".lock", ".editorconfig", ".prettierrc", ".eslintrc", ".babelrc"]

  /** All known extensions, in table order (`ALL_KNOWN_EXTENSIONS`). */
  const ALL_KNOWN_EXTENSIONS: seq<string> :=
    VIDEO_EXTENSIONS + AUDIO_EXTENSIONS + IMAGE_EXTENSIONS + DOCUMENT_EXTENSIONS
    + ARCHIVE_EXTENSIONS + EXECUTABLE_EXTENSIONS + CODE_EXTENSIONS

  datatype Category = Video | Audio | Image | Document | Archive | Executable | Code

  function Extensions(c: Category): seq<string> {
    match c
    case Video => VIDEO_EXTENSIONS
    case Audio => AUDIO_EXTENSIONS
    case Image => IMAGE_EXTENSIONS
    case Document => DOCUMENT_EXTENSIONS
    case Archive => ARCHIVE_EXTENSIONS
    case Executable => EXECUTABLE_EXTENSIONS
    case Code => CODE_EXTENSIONS
  }

  /** The lower-cased path ends with one of `exts` (also the ILIKE '%ext' test of the file-count queries). */
  predicate MatchesAny(path: string, exts: seq<string>) {
    exists e :: e in exts && EndsWith(Lower(path), e)
  }

  /** `is_known` in update_counts. */
  predicate IsKnown(path: string) {
    MatchesAny(path, ALL_KNOWN_EXTENSIONS)
  }

  /** A path is known exactly when some category table matches it, so "unknown" means "no category". */
  lemma KnownIffSomeCategory(path: string)
    ensures IsKnown(path) <==> exists c :: MatchesAny(path, Extensions(c))
  {
    var v, au, im, d := VIDEO_EXTENSIONS, AUDIO_EXTENSIONS, IMAGE_EXTENSIONS, DOCUMENT_EXTENSIONS;
    var ar, ex, co := ARCHIVE_EXTENSIONS, EXECUTABLE_EXTENSIONS, CODE_EXTENSIONS;
    MatchesConcat(path, v + au + im + d + ar + ex, co);
    MatchesConcat(path, v + au + im + d + ar, ex);
    MatchesConcat(path, v + au + im + d, ar);
    MatchesConcat(path, v + au + im, d);
    MatchesConcat(path, v + au, im);
    MatchesConcat(path, v, au);
    if IsKnown(path) {
      var c :=
        if MatchesAny(path, v) then Video
        else if MatchesAny(path, au) then Audio
        else if MatchesAny(path, im) then Image
        else if MatchesAny(path, d) then Document
        else if MatchesAny(path, ar) then Archive
        else if MatchesAny(path, ex) then Executable
        else Code;
      assert MatchesAny(path, Extensions(c));
    }
  }

  /** The tables are not disjoint: five extensions sit in two tables each. */
  lemma TablesOverlap()
    ensures ".ts" in VIDEO_EXTENSIONS && ".ts" in CODE_EXTENSIONS
    ensures ".dmg" in ARCHIVE_EXTENSIONS && ".dmg" in EXECUTABLE_EXTENSIONS
    ensures ".sh" in EXECUTABLE_EXTENSIONS && ".sh" in CODE_EXTENSIONS
    ensures ".bat" in EXECUTABLE_EXTENSIONS && ".bat" in CODE_EXTENSIONS
    ensures ".ps1" in EXECUTABLE_EXTENSIONS && ".ps1" in CODE_EXTENSIONS
  {
  }

  /** So category membership is not exclusive: "clip.TS" is a video and a code file at once. */
  lemma CategoriesNotExclusive()
    ensures MatchesAny("clip.TS", Extensions(Video)) && MatchesAny("clip.TS", Extensions(Code))
  {
    assert VIDEO_EXTENSIONS[11] == ".ts" && CODE_EXTENSIONS[11] == ".ts";
    var lower := Lower("clip.TS");
    assert lower[4] == '.' && lower[5] == 't' && lower[6] == 's';
    assert lower[4..] == ".ts";
    assert EndsWith(lower, ".ts");
  }

  /** Every entry of `exts` is a dot followed by at least one character. */
  predicate Dotted(exts: seq<string>) {
    forall e :: e in exts ==> |e| > 1 && e[0] == '.'
  }

  lemma VideoDotted() ensures Dotted(VIDEO_EXTENSIONS) { }
  lemma AudioDotted() ensures Dotted(AUDIO_EXTENSIONS) { }
  lemma ImageDotted() ensures Dotted(IMAGE_EXTENSIONS) { }
  lemma DocumentDotted() ensures Dotted(DOCUMENT_EXTENSIONS) { }
  lemma ArchiveDotted() ensures Dotted(ARCHIVE_EXTENSIONS) { }
  lemma ExecutableDotted() ensures Dotted(EXECUTABLE_EXTENSIONS) { }
  /** The code table is long, so it is checked twelve entries at a time. */
  predicate DottedFrom(exts: seq<string>, lo: int, hi: int) {
    forall i :: lo <= i < hi && 0 <= i < |exts| ==> |exts[i]| > 1 && exts[i][0] == '.'
  }

  lemma CodeRow0Dotted() ensures DottedFrom(CODE_EXTENSIONS, 0, 12) { }
  lemma CodeRow1Dotted() ensures DottedFrom(CODE_EXTENSIONS, 12, 24) { }
  lemma CodeRow2Dotted() ensures DottedFrom(CODE_EXTENSIONS, 24, 36) { }
  lemma CodeRow3Dotted() ensures DottedFrom(CODE_EXTENSIONS, 36, 48) { }
  lemma CodeRow4Dotted() ensures DottedFrom(CODE_EXTENSIONS, 48, 60) { }

  lemma CodeDotted() ensures Dotted(CODE_EXTENSIONS) {
    CodeRow0Dotted(); CodeRow1Dotted(); CodeRow2Dotted(); CodeRow3Dotted(); CodeRow4Dotted();
    assert DottedFrom(CODE_EXTENSIONS, 0, |CODE_EXTENSIONS|);
  }

  /** Every table holds dotted extensions only. */
  lemma AllDotted(c: Category)
    ensures Dotted(Extensions(c))
  {
    match c
    case Video => VideoDotted();
    case Audio => AudioDotted();
    case Image => ImageDotted();
    case Document => DocumentDotted();
    case Archive => ArchiveDotted();
    case Executable => ExecutableDotted();
    case Code => CodeDotted();
  }

  /** A path of at most one character ends with no extension, so it is unknown. */
  lemma ShortPathUnknown(p: string)
    requires |p| <= 1
    ensures !IsKnown(p)
    ensures forall c :: !MatchesAny(p, Extensions(c))
  {
    forall c ensures !MatchesAny(p, Extensions(c)) {
      AllDotted(c);
    }
    KnownIffSomeCategory(p);
  }

  /** The order in which update_counts and backfill_counts visit the categories. */
  const CATEGORY_ORDER: seq<Category> := [Archive, Code, Document, Executable, Image, Audio, Video]

  // Counter names.
  const TORRENTS := "torrents"
  const TORRENT_FILES := "torrent_files"
  const TORRENT_FILES_SIZE := "torrent_files_size"
  const TORRENT_FILES_UNKNOWN := "torrent_files_unknown"
  const TORRENT_FILES_UNKNOWN_SIZE := "torrent_files_unknown_size"

  function CountName(c: Category): string {
    match c
    case Video => "torrent_files_videos"
    case Audio => "torrent_files_audio_files"
    case Image => "torrent_files_images"
    case Document => "torrent_files_documents"
    case Archive => "torrent_files_archives"
    case Executable => "torrent_files_executables"
    case Code => "torrent_files_code_files"
  }

  function SizeName(c: Category): string {
    match c
    case Video => "torrent_files_videos_size"
    case Audio => "torrent_files_audio_files_size"
    case Image => "torrent_files_images_size"
    case Document => "torrent_files_documents_size"
    case Archive => "torrent_files_archives_size"
    case Executable => "torrent_files_executables_size"
    case Code => "torrent_files_code_files_size"
  }

  /** Every counter name the application uses. */
  const ALL_COUNTER_NAMES: seq<string> := [
    TORRENTS, TORRENT_FILES, TORRENT_FILES_SIZE,
    CountName(Archive), SizeName(Archive), CountName(Code), SizeName(Code),
    CountName(Document), SizeName(Document), CountName(Executable), SizeName(Executable),
    CountName(Image), SizeName(Image), CountName(Audio), SizeName(Audio),
    CountName(Video), SizeName(Video), TORRENT_FILES_UNKNOWN, TORRENT_FILES_UNKNOWN_SIZE
  ]

  /** The nineteen counter names are pairwise distinct. */
  lemma CounterNamesDistinct()
    ensures forall i, j :: 0 <= i < j < |ALL_COUNTER_NAMES| ==> ALL_COUNTER_NAMES[i] != ALL_COUNTER_NAMES[j]
  {
  }

  /** `get_count` / `get_size` on the Counts map: a missing row reads as 0. */
  function Get(counts: map<string, int>, name: string): int {
    if name in counts then counts[name] else 0
  }

  function Max0(x: int): nat {
    if x > 0 then x else 0
  }

  /**
   * The effect of `update_file_counts(name, add)`: a non-positive `add` writes nothing;
   * otherwise the row is created with `add` or grows by `add`.
   */
  function Bump(counts: map<string, int>, name: string, add: int): (r: map<string, int>)
    ensures add <= 0 ==> r == counts
    ensures add > 0 ==> name in r && r[name] == Get(counts, name) + add
    ensures r.Keys == counts.Keys + (if add > 0 then {name} else {})
    ensures forall n :: n != name && n in counts ==> r[n] == counts[n]
    ensures forall n :: Get(r, n) >= Get(counts, n)
    ensures Get(r, name) == Get(counts, name) + Max0(add)
  {
    if add <= 0 then counts
    else if name in counts then counts[name := counts[name] + add]
    else counts[name := add]
  }

  /** One call of an update function: a counter name and the amount to add. */
  datatype Write = Write(name: string, add: int)

  /** The counts after a sequence of create-or-increment writes, applied in order. */
  function ApplyWrites(counts: map<string, int>, ws: seq<Write>): map<string, int> {
    if ws == [] then counts
    else Bump(ApplyWrites(counts, ws[..|ws| - 1]), ws[|ws| - 1].name, ws[|ws| - 1].add)
  }

  /** What `ws` adds to counter `name`: its positive amounts for that name. */
  function Delta(ws: seq<Write>, name: string): nat {
    if ws == [] then 0
    else Delta(ws[..|ws| - 1], name) + (if ws[|ws| - 1].name == name then Max0(ws[|ws| - 1].add) else 0)
  }

  /** Reading a counter after a sequence of writes gives its old value plus what the writes add to it. */
  lemma {:induction false} ApplyWritesGet(counts: map<string, int>, ws: seq<Write>, name: string)
    ensures Get(ApplyWrites(counts, ws), name) == Get(counts, name) + Delta(ws, name)
    ensures name in ApplyWrites(counts, ws) <==> name in counts || Delta(ws, name) > 0
  {
    if ws != [] {
      ApplyWritesGet(counts, ws[..|ws| - 1], name);
    }
  }

  /** A counter that `ws` names exactly once gets exactly that write's positive amount. */
  lemma {:induction false} DeltaOfUniqueName(ws: seq<Write>, k: nat)
    requires k < |ws|
    requires forall j :: 0 <= j < |ws| && j != k ==> ws[j].name != ws[k].name
    ensures Delta(ws, ws[k].name) == Max0(ws[k].add)
  {
    var n := ws[k].name;
    if k < |ws| - 1 {
      DeltaOfUniqueName(ws[..|ws| - 1], k);
    } else {
      DeltaOfAbsentName(ws[..|ws| - 1], n);
    }
  }

  /** A counter that `ws` never names is left alone. */
  lemma {:induction false} DeltaOfAbsentName(ws: seq<Write>, name: string)
    requires forall j :: 0 <= j < |ws| ==> ws[j].name != name
    ensures Delta(ws, name) == 0
  {
    if ws != [] {
      DeltaOfAbsentName(ws[..|ws| - 1], name);
    }
  }

  /** `get_count` / `get_size`: a read of the Counts table. */
  method GetCount(db: Database, name: string) returns (value: int)
    ensures name in db.counts ==> value == db.counts[name]
    ensures name !in db.counts ==> value == 0
  {
    if name in db.counts {
      value := db.counts[name];
    } else {
      value := 0;
    }
  }

  /** `get_size`: the same read as `get_count`. */
  method GetSize(db: Database, name: string) returns (value: int)
    ensures name in db.counts ==> value == db.counts[name]
    ensures name !in db.counts ==> value == 0
  {
    value := GetCount(db, name);
  }

  /** `update_file_counts`: create-or-increment, skipped when `add <= 0`. */
  method UpdateFileCounts(db: Database, name: string, add: int)
    modifies db`counts
    ensures db.counts == Bump(old(db.counts), name, add)
  {
    if add > 0 {
      if name in db.counts {
        db.counts := db.counts[name := db.counts[name] + add];
      } else {
        db.counts := db.counts[name := add];
      }
    }
  }

  /** `update_files_size`: the same code as `update_file_counts`. */
  method UpdateFilesSize(db: Database, name: string, add: int)
    modifies db`counts
    ensures db.counts == Bump(old(db.counts), name, add)
  {
    UpdateFileCounts(db, name, add);
  }

  /**
   * Increment a row that must already exist. With `add > 0` and no row,
   * the source dereferences None and raises: `ok` is false and nothing is written.
   */
  method IncrementExisting(db: Database, name: string, add: int) returns (ok: bool)
    modifies db`counts
    ensures ok <==> add <= 0 || name in old(db.counts)
    ensures ok ==> db.counts == Bump(old(db.counts), name, add)
    ensures !ok ==> db.counts == old(db.counts)
  {
    ok := true;
    if add > 0 {
      if name !in db.counts {
        ok := false;
        return;
      }
      db.counts := db.counts[name := db.counts[name] + add];
    }
  }

  /** `update_total_torrent_count`. */
  method UpdateTotalTorrentCount(db: Database, add: int) returns (ok: bool)
    modifies db`counts
    ensures ok <==> add <= 0 || TORRENTS in old(db.counts)
    ensures ok ==> db.counts == Bump(old(db.counts), TORRENTS, add)
    ensures !ok ==> db.counts == old(db.counts)
  {
    ok := IncrementExisting(db, TORRENTS, add);
  }

  /** `update_total_files_size`. */
  method UpdateTotalFilesSize(db: Database, add: int) returns (ok: bool)
    modifies db`counts
    ensures ok <==> add <= 0 || TORRENT_FILES_SIZE in old(db.counts)
    ensures ok ==> db.counts == Bump(old(db.counts), TORRENT_FILES_SIZE, add)
    ensures !ok ==> db.counts == old(db.counts)
  {
    ok := IncrementExisting(db, TORRENT_FILES_SIZE, add);
  }

  /**
   * `get_file_count_by_extensions`: the number of file rows whose path ends,
   * case-insensitively, with one of `exts`; each row counts once.
   */
  function FileCountByExtensions(files: map<nat, TorrentFile>, exts: seq<string>): (r: nat)
    ensures exts == [] ==> r == 0
    ensures r <= |files|
  {
    if exts == [] then 0
    else
      var hits := set id | id in files && MatchesAny(files[id].path, exts);
      assert hits <= files.Keys;
      CardinalityOfSubset(hits, files.Keys);
      |hits|
  }

  lemma {:induction false} CardinalityOfSubset<T>(a: set<T>, b: set<T>)
    requires a <= b
    ensures |a| <= |b|
  {
    if a != {} {
      var x :| x in a;
      CardinalityOfSubset(a - {x}, b - {x});
    }
  }

  /** The ids of the rows `exts` match: what the count query counts. */
  ghost function Hits(files: map<nat, TorrentFile>, exts: seq<string>): set<nat> {
    set id | id in files && MatchesAny(files[id].path, exts)
  }

  lemma CountIsHits(files: map<nat, TorrentFile>, exts: seq<string>)
    ensures FileCountByExtensions(files, exts) == |Hits(files, exts)|
  {
    if exts == [] {
      assert Hits(files, exts) == {};
    }
  }

  lemma MatchesConcat(path: string, a: seq<string>, b: seq<string>)
    ensures MatchesAny(path, a + b) <==> MatchesAny(path, a) || MatchesAny(path, b)
  {
    if MatchesAny(path, a + b) {
      var e :| e in a + b && EndsWith(Lower(path), e);
      assert e in a || e in b;
    }
    if MatchesAny(path, a) {
      var e :| e in a && EndsWith(Lower(path), e);
      assert e in a + b;
    }
    if MatchesAny(path, b) {
      var e :| e in b && EndsWith(Lower(path), e);
      assert e in a + b;
    }
  }

  /** An empty file table counts nothing. */
  lemma FileCountNoRows(exts: seq<string>)
    ensures FileCountByExtensions(map[], exts) == 0
  {
    CountIsHits(map[], exts);
    assert Hits(map[], exts) == {};
  }

  /**
   * Adding a row raises the count by one exactly when one of `exts` matches its
   * path: with FileCountNoRows this fixes the count row by row, each row once.
   */
  lemma FileCountAddRow(files: map<nat, TorrentFile>, id: nat, f: TorrentFile, exts: seq<string>)
    requires id !in files
    ensures FileCountByExtensions(files[id := f], exts)
         == FileCountByExtensions(files, exts) + (if MatchesAny(f.path, exts) then 1 else 0)
  {
    CountIsHits(files, exts);
    CountIsHits(files[id := f], exts);
    var h := Hits(files, exts);
    assert id !in h;
    if MatchesAny(f.path, exts) {
      assert Hits(files[id := f], exts) == h + {id};
    } else {
      assert Hits(files[id := f], exts) == h;
    }
  }

  /** When every path matches, every row is counted. */
  lemma FileCountAllMatch(files: map<nat, TorrentFile>, exts: seq<string>)
    requires forall id :: id in files ==> MatchesAny(files[id].path, exts)
    ensures FileCountByExtensions(files, exts) == |files|
  {
    CountIsHits(files, exts);
    assert Hits(files, exts) == files.Keys;
  }

  /** When no path matches, nothing is counted. */
  lemma FileCountNoneMatch(files: map<nat, TorrentFile>, exts: seq<string>)
    requires forall id :: id in files ==> !MatchesAny(files[id].path, exts)
    ensures FileCountByExtensions(files, exts) == 0
  {
    CountIsHits(files, exts);
    assert Hits(files, exts) == {};
  }

  /** More suffixes never count fewer rows. */
  lemma FileCountMonotone(files: map<nat, TorrentFile>, a: seq<string>, b: seq<string>)
    requires forall e :: e in a ==> e in b
    ensures FileCountByExtensions(files, a) <= FileCountByExtensions(files, b)
  {
    CountIsHits(files, a);
    CountIsHits(files, b);
    forall id | id in Hits(files, a) ensures id in Hits(files, b) {
      var e :| e in a && EndsWith(Lower(files[id].path), e);
    }
    CardinalityOfSubset(Hits(files, a), Hits(files, b));
  }

  /** The count depends only on which suffixes are listed, so a repeated suffix changes nothing. */
  lemma FileCountDuplicate(files: map<nat, TorrentFile>, exts: seq<string>, e: string)
    requires e in exts
    ensures FileCountByExtensions(files, exts + [e]) == FileCountByExtensions(files, exts)
  {
    FileCountMonotone(files, exts, exts + [e]);
    FileCountMonotone(files, exts + [e], exts);
  }

  /**
   * Counting two suffix lists together gives at most the two counts added, and
   * strictly less when some row matches a suffix of each: that row counts once.
   */
  lemma FileCountSubadditive(files: map<nat, TorrentFile>, a: seq<string>, b: seq<string>)
    ensures FileCountByExtensions(files, a + b)
         <= FileCountByExtensions(files, a) + FileCountByExtensions(files, b)
    ensures (exists id :: id in files && MatchesAny(files[id].path, a) && MatchesAny(files[id].path, b))
         ==> FileCountByExtensions(files, a + b)
             < FileCountByExtensions(files, a) + FileCountByExtensions(files, b)
  {
    CountIsHits(files, a);
    CountIsHits(files, b);
    CountIsHits(files, a + b);
    var ha, hb := Hits(files, a), Hits(files, b);
    forall id | id in files ensures MatchesAny(files[id].path, a + b) <==> MatchesAny(files[id].path, a) || MatchesAny(files[id].path, b) {
      MatchesConcat(files[id].path, a, b);
    }
    assert Hits(files, a + b) == ha + hb;
    assert |ha + hb| + |ha * hb| == |ha| + |hb|;
    if exists id :: id in files && MatchesAny(files[id].path, a) && MatchesAny(files[id].path, b) {
      var id :| id in files && MatchesAny(files[id].path, a) && MatchesAny(files[id].path, b);
      assert id in ha * hb;
    }
  }
}
