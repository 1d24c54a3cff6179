# torrent.garden in Dafny

A model of the core of torrent.garden, a torrent index. Crawlers post torrents to an
HTTP endpoint. The server stores each torrent and its files, and keeps a table of
aggregate counters: torrents, files and bytes, per file category and for unknown
files. The web UI browses and searches the stored rows and counts views and
downloads. A maintenance script recomputes the counters from the rows, and another
registers crawler credentials.

The model covers:

- the schema (`Schema`): torrents, files, crawlers, the two link tables and the
  Counts table, held by one `Database` class whose fields the operations update in
  place. `Database.Valid` states what the callers keep true: unique file paths,
  unique info hashes, unique crawler names, link rows that point at stored rows and
  occur once, and fresh primary keys;
- the counter store and the extension tables (`CountDb`). A counter write is a
  method on the database, specified by the pure `Bump`;
- the ingestion endpoint (`TorrentApi`): the per-category tallies, the counter
  policy of `update_counts`, file resolution and linking, `add_torrent` and the
  credential check of `api_add_torrent`;
- the counter backfill (`Backfill`, `BackfillProps`) and crawler registration
  (`Clients`);
- the torrent page counters (`TorrentView`);
- the four UI states (`Browse`, `SearchTorrents`, `SearchFiles`, `Search`) and the
  rules they share: pagination (`Listing`) and Python's stable `sorted` with a key
  (`Sorting`, `Columns`).

Two properties of the code shape the counters:

- **Categories are not exclusive.** The code tests every extension table
  independently, and five extensions (`.ts`, `.dmg`, `.sh`, `.bat`, `.ps1`) sit in
  two tables. A file such as `clip.TS` therefore counts as a video and as a code
  file (`CountDb.TablesOverlap`, `CountDb.CategoriesNotExclusive`,
  `TorrentApi.OneFileCountedTwice`). "Unknown" does mean "no table matches"
  (`CountDb.KnownIffSomeCategory`), so every file lands in at least one bucket
  (`TorrentApi.EveryFileCounted`).
- **Backfill can undercount unknown files.** `backfill_counts` derives the unknown
  count as the file total minus the sum of the seven category counts. A file in two
  tables is subtracted twice. The derived count never exceeds the true number of
  unknown rows (`BackfillProps.BackfilledUnknownAtMost`), and falls strictly below
  it as soon as one unknown row and one doubly-matched row exist
  (`BackfillProps.BackfillUndercountsOverlap`). `update_counts`, by contrast,
  counts the unknown files directly (`TorrentApi.UpdateCountsEffect`).

Two further consequences of the code are proved:

- `update_file_counts` and `update_files_size` create a missing counter row, but
  `update_total_torrent_count` and `update_total_files_size` dereference theirs.
  A missing `torrents` row makes `update_counts` raise before anything is written.
  A missing `torrent_files_size` row makes it raise part-way through, once the
  `torrents` and `torrent_files` counters are committed, when the new files have a
  positive byte total. In either case `add_torrent` never reaches its final commit,
  so the crawler link is not written (`TorrentApi.Created`, `TorrentApi.CountsAfter`).
- Once `backfill_counts` has run, every counter exists, so `update_counts` can no
  longer fail (`BackfillProps.BackfillEnablesUpdates`).

## Model

| member | source | states |
|---|---|---|
| Schema.NewTorrent | torrent_garden/db/model.py:36-47 | a new torrent row has 0 views, 0 downloads, seen count 1, no update time, and the given name, hash, size and creation time |
| Schema.NewCrawler | torrent_garden/db/model.py:20-26 | a new crawler row has the given name, token and creation time, and no failed authentication |
| Schema.Database.constructor | torrent_garden/db/model.py:8-59 | an empty database satisfies the schema invariants |
| Schema.Database.TorrentWithHash | torrent_garden/api/torrent.py:162-163 | finds a torrent with the hash if one is stored, and returns None only when none is |
| Schema.CrawlerNamed | torrent_garden/api/torrent.py:197 | finds a crawler with the name if one is stored, and returns None only when none is |
| Schema.Database.FindTorrent | torrent_garden/api/torrent.py:162-163 | the lookup by info hash returns the stored torrent with that hash, or None |
| Schema.Database.FindCrawler | torrent_garden/utils/create_clients.py:13-14 | the lookup by name returns the stored crawler with that name, or None |
| Schema.Database.FindFile | torrent_garden/api/torrent.py:134-136 | a stored path resolves to a row with that path, and an unstored path to None |
| CountDb.KnownIffSomeCategory | torrent_garden/db/count.py:58-66 | a path is known exactly when one of the seven tables matches it |
| CountDb.TablesOverlap | torrent_garden/db/count.py:36-55 | `.ts`, `.dmg`, `.sh`, `.bat` and `.ps1` each sit in two tables |
| CountDb.CategoriesNotExclusive | torrent_garden/api/torrent.py:115-119 | one path (`clip.TS`) matches the video table and the code table at once |
| CountDb.AllDotted | torrent_garden/db/count.py:36-55 | every table entry is a dot followed by at least one character |
| CountDb.ShortPathUnknown | torrent_garden/api/torrent.py:122-124 | a path of at most one character matches no table and is unknown |
| CountDb.CounterNamesDistinct | torrent_garden/db/count.py:97-116 | the nineteen counter names are pairwise distinct |
| CountDb.Bump | torrent_garden/db/count.py:145-154 | a non-positive amount writes nothing; otherwise the counter is created with the amount or grows by it; no other counter changes and none decreases |
| CountDb.ApplyWritesGet | torrent_garden/db/count.py:145-174 | after a series of writes a counter holds its old value plus the positive amounts written to it, and exists exactly when it existed or received one |
| CountDb.DeltaOfUniqueName | torrent_garden/db/count.py:145-174 | a counter written once in a series receives exactly that write's positive amount |
| CountDb.DeltaOfAbsentName | torrent_garden/db/count.py:145-174 | a counter a series never names receives nothing |
| CountDb.GetCount | torrent_garden/db/count.py:119-124 | reads the stored value, or 0 when the row is missing |
| CountDb.GetSize | torrent_garden/db/count.py:157-162 | reads the stored value, or 0 when the row is missing |
| CountDb.UpdateFileCounts | torrent_garden/db/count.py:145-154 | the counts become `Bump` of the old counts |
| CountDb.UpdateFilesSize | torrent_garden/db/count.py:165-174 | the counts become `Bump` of the old counts |
| CountDb.UpdateTotalTorrentCount | torrent_garden/db/count.py:127-133 | succeeds exactly when the amount is non-positive or the `torrents` row exists; then bumps it, else writes nothing |
| CountDb.UpdateTotalFilesSize | torrent_garden/db/count.py:136-142 | succeeds exactly when the amount is non-positive or the `torrent_files_size` row exists; then bumps it, else writes nothing |
| CountDb.FileCountByExtensions | torrent_garden/db/count.py:23-33 | an empty suffix list counts 0, and no more rows are counted than are stored |
| CountDb.FileCountNoRows | torrent_garden/db/count.py:27-33 | an empty files table counts 0 |
| CountDb.FileCountAddRow | torrent_garden/db/count.py:27-33 | one more row adds 1 exactly when one of the suffixes matches its lower-cased path, so each row counts once however many suffixes match |
| CountDb.FileCountAllMatch | torrent_garden/db/count.py:27-33 | when every path matches, every row is counted |
| CountDb.FileCountNoneMatch | torrent_garden/db/count.py:27-33 | when no path matches, the count is 0 |
| CountDb.FileCountMonotone | torrent_garden/db/count.py:27-33 | adding suffixes never lowers the count |
| CountDb.FileCountDuplicate | torrent_garden/db/count.py:27-33 | a suffix listed twice changes nothing |
| CountDb.FileCountSubadditive | torrent_garden/db/count.py:27-33 | two suffix lists counted together give at most the sum of their counts, and strictly less when one row matches both |
| TorrentApi.FileTypeCount | torrent_garden/api/torrent.py:69-76 | counts the files whose lower-cased path ends with one of the endings, each file once, never more than there are files |
| TorrentApi.FileTypeSize | torrent_garden/api/torrent.py:79-86 | sums the sizes of exactly those files |
| TorrentApi.EndsWithAny | torrent_garden/api/torrent.py:72-75 | the inner loop finds a hit exactly when some ending matches the lower-cased path |
| TorrentApi.MatchingMembers | torrent_garden/api/torrent.py:69-76 | a category tally keeps exactly the files whose path the table matches |
| TorrentApi.UnknownMembers | torrent_garden/api/torrent.py:122-127 | the unknown tally keeps exactly the files no known extension matches |
| TorrentApi.KnownAndUnknownPartition | torrent_garden/api/torrent.py:122-127 | known and unknown files together are all the files, by count and by size |
| TorrentApi.EveryFileCounted | torrent_garden/api/torrent.py:105-129 | the seven category counts plus the unknown count cover every new file |
| TorrentApi.OneFileCountedTwice | torrent_garden/api/torrent.py:105-119 | one `clip.TS` file adds at least 2 to the category counters |
| TorrentApi.CountsAfter | torrent_garden/api/torrent.py:89-129 | update_counts finishes exactly when the `torrents` row exists and, for a positive byte total, the `torrent_files_size` row too; with no `torrents` row nothing is written |
| TorrentApi.UpdateCountsEffect | torrent_garden/api/torrent.py:89-129 | when it finishes: `torrents` grows by 1, `torrent_files` by the new files, `torrent_files_size` by their positive bytes, each category pair by its matches, the unknown pair by the unmatched files, and every other counter is unchanged |
| TorrentApi.NoNewFilesCountOnlyTheTorrent | torrent_garden/api/torrent.py:91-102 | a torrent with no new files moves only the `torrents` counter |
| TorrentApi.NothingNewWhenAllKnown | torrent_garden/api/torrent.py:138-152 | a submission whose paths are all stored creates no file row |
| TorrentApi.UpdateCounts | torrent_garden/api/torrent.py:89-129 | the counts and the success flag are those of `CountsAfter` |
| TorrentApi.NewEntriesSpec | torrent_garden/api/torrent.py:132-154 | the new rows carry exactly the submitted paths not stored before, each path once, and every new row is a submitted entry |
| TorrentApi.NewEntriesFirst | torrent_garden/api/torrent.py:138-147 | the new rows are exactly the first occurrences of the unstored paths, in both directions |
| TorrentApi.AddRowsSpec | torrent_garden/api/torrent.py:140-146 | new rows go under consecutive fresh ids in submission order, and old rows are kept |
| TorrentApi.LinkedInGrows | torrent_garden/api/torrent.py:150-151 | a path linked to the torrent stays linked while links are only appended |
| TorrentApi.ResolveFile | torrent_garden/api/torrent.py:139-152 | an unstored path gets a new row under the next id; a stored one changes no row; either way the path ends up linked to the torrent, and every appended link points at the row of that path |
| TorrentApi.AddFileRow | torrent_garden/api/torrent.py:140-147 | a new file row under the next id, and its path joins the stored paths |
| TorrentApi.LinkFile | torrent_garden/api/torrent.py:140-152 | the link table gains the row (torrent, file) exactly when it was not there, and nothing else |
| TorrentApi.CreateTorrentFiles | torrent_garden/api/torrent.py:132-154 | returns the new entries; rows are added for them alone; links are only appended, each from this torrent to the row of a submitted path; every submitted path is linked afterwards |
| TorrentApi.ResolveNext | torrent_garden/api/torrent.py:138-152 | one loop iteration extends the resolved prefix by one entry, with the appended links pointing only at the rows of resolved paths |
| TorrentApi.Resight | torrent_garden/api/torrent.py:179-180 | one more sighting and an update time of now; nothing else changes |
| TorrentApi.WithLinkSpec | torrent_garden/api/torrent.py:183-186 | the guarded append links the crawler, is idempotent, keeps link rows unique and adds no other row |
| TorrentApi.AddTorrent | torrent_garden/api/torrent.py:157-188 | a known hash is resighted and only the crawler link changes; a new hash becomes a row with the defaults, its files resolved and counted; the crawler link is written only when the counters succeeded; afterwards the hash is stored |
| TorrentApi.AddNewTorrent | torrent_garden/api/torrent.py:164-188 | the new-hash branch, as `Created` states |
| TorrentApi.CountAndLink | torrent_garden/api/torrent.py:176-188 | the counts and the success flag are those of `CountsAfter`; the crawler link is appended only when the counters succeeded |
| TorrentApi.StoreNewTorrent | torrent_garden/api/torrent.py:166-175 | the torrent row under the next id, then its files resolved |
| TorrentApi.AddKnownTorrent | torrent_garden/api/torrent.py:177-188 | the known-hash branch, as `Resighted` states |
| TorrentApi.InsertTorrent | torrent_garden/api/torrent.py:166-174 | a torrent row with the column defaults under the next id |
| TorrentApi.ResightTorrent | torrent_garden/api/torrent.py:179-181 | only that torrent changes, as `Resight` |
| TorrentApi.LinkCrawler | torrent_garden/api/torrent.py:183-186 | the link rows become `WithLink` of the old ones |
| TorrentApi.Authenticate | torrent_garden/api/torrent.py:197-199 | an unknown name matches no crawler; otherwise the crawler has that name, and the token matches exactly in the authenticated case |
| TorrentApi.ApiAddTorrent | torrent_garden/api/torrent.py:191-212 | authentication off: anonymous ingestion; an unknown name: refusal, nothing written; a wrong token: refusal and one more failure for that crawler; a matching token: ingestion on that crawler's behalf |
| TorrentApi.RecordFailedAuthentication | torrent_garden/api/torrent.py:202 | only that crawler's failure count goes up, by one |
| Backfill.TotalSizeRemove | torrent_garden/db/count.py:16-20 | the sum of sizes does not depend on the order the rows are added in |
| Backfill.GetTotalTorrentSize | torrent_garden/db/count.py:16-20 | the sum of all torrent sizes, 0 with no rows |
| Backfill.SetCounter | torrent_garden/utils/backfill_counts.py:42-51 | the counter is created or overwritten with the value |
| Backfill.BackfillCategory | torrent_garden/utils/backfill_counts.py:61-80 | a category's count becomes its matching rows, and its size is written back unchanged |
| Backfill.BackfillTotals | torrent_garden/utils/backfill_counts.py:56-59 | the three totals are written from the rows |
| Backfill.BackfillCategories | torrent_garden/utils/backfill_counts.py:61-80 | the seven category pairs are written in source order |
| Backfill.BackfillUnknown | torrent_garden/utils/backfill_counts.py:83-116 | the unknown pair is derived from the counters already written |
| Backfill.BackfillCounts | torrent_garden/utils/backfill_counts.py:54-116 | the counts become `Backfilled` of the rows and the old counts |
| BackfillProps.ApplyConsistent | torrent_garden/utils/backfill_counts.py:54-116 | the backfilled table is consistent with the rows: all nineteen counters exist, totals and category counts match the rows, and the unknown pair is derived from them |
| BackfillProps.ConsistentFixed | torrent_garden/utils/backfill_counts.py:54-116 | on a consistent table the backfill changes nothing |
| BackfillProps.ApplyIdempotent | torrent_garden/utils/backfill_counts.py:54-116 | a second backfill over the same row counts changes nothing |
| BackfillProps.BackfilledTorrentCount | torrent_garden/utils/backfill_counts.py:56 | `torrents` becomes the number of torrent rows |
| BackfillProps.BackfilledFileCount | torrent_garden/utils/backfill_counts.py:58 | `torrent_files` becomes the number of file rows |
| BackfillProps.BackfilledTotalSize | torrent_garden/utils/backfill_counts.py:59 | `torrent_files_size` becomes the summed torrent sizes |
| BackfillProps.BackfilledCategoryCount | torrent_garden/utils/backfill_counts.py:61-80 | each category count becomes the number of file rows its table matches |
| BackfillProps.BackfilledUnknownCount | torrent_garden/utils/backfill_counts.py:83-99 | the unknown count becomes the file rows less the summed category counts, clamped at 0 |
| BackfillProps.BackfilledUnknownSize | torrent_garden/utils/backfill_counts.py:100-116 | the unknown size becomes the total size less the category sizes read before, clamped at 0 |
| BackfillProps.BackfilledKeeps | torrent_garden/utils/backfill_counts.py:54-116 | every counter the backfill does not derive keeps its value, the category sizes among them |
| BackfillProps.BackfilledKeys | torrent_garden/utils/backfill_counts.py:42-51 | the counters afterwards are the old ones plus all nineteen |
| BackfillProps.BackfillIdempotent | torrent_garden/utils/backfill_counts.py:54-116 | a second backfill over the same database changes nothing |
| BackfillProps.BackfillEnablesUpdates | torrent_garden/api/torrent.py:89-129 | after a backfill, update_counts cannot fail, whatever files a torrent brings |
| BackfillProps.CoveredAtMostSum | torrent_garden/utils/backfill_counts.py:89-97 | the rows some category matches are never more than the summed category counts |
| BackfillProps.CoveredBelowSum | torrent_garden/utils/backfill_counts.py:89-97 | a row that two categories match makes the sum strictly exceed the matched rows |
| BackfillProps.CoveredAreKnown | torrent_garden/db/count.py:58-66 | the rows the seven categories match are exactly the known rows |
| BackfillProps.KnownUnknownSplit | torrent_garden/api/torrent.py:122-127 | every row is known or unknown, never both |
| BackfillProps.BackfilledUnknownAtMost | torrent_garden/utils/backfill_counts.py:83-99 | the backfilled unknown count never exceeds the rows no table matches |
| BackfillProps.BackfillUndercountsOverlap | torrent_garden/utils/backfill_counts.py:83-99 | with an unknown row present, one row in two tables makes the backfilled unknown count strictly less than the unknown rows |
| BackfillProps.BackfillCoversEveryFile | torrent_garden/utils/backfill_counts.py:83-99 | category counts plus the unknown count cover the file total, and the unknown count lies between 0 and the file total |
| Clients.NamedUnique | torrent_garden/utils/create_clients.py:13-14 | with unique names the lookup returns the one crawler of that name |
| Clients.UpsertSpec | torrent_garden/utils/create_clients.py:12-26 | names stay unique; the crawler of that name carries the new token; other crawlers are untouched; a created crawler has no failures |
| Clients.UpsertExisting | torrent_garden/utils/create_clients.py:23-25 | an existing crawler keeps its id, creation time and failures, and only its token changes |
| Clients.UpsertIdempotent | torrent_garden/utils/create_clients.py:12-26 | registering the same record twice equals registering it once |
| Clients.CreateClient | torrent_garden/utils/create_clients.py:12-26 | the crawlers become `Upsert` of the old ones, keeping the schema invariants |
| Clients.CreateClients | torrent_garden/utils/create_clients.py:36-37 | the crawlers become each record upserted in turn |
| Clients.UpsertAllSpec | torrent_garden/utils/create_clients.py:36-37 | names stay unique, each listed name ends up on one crawler with the token of its last record, and crawlers no record names are untouched |
| TorrentView.WithView | torrent_garden/ui/state/torrent/action.py:16-23 | exactly that torrent gets one more view |
| TorrentView.WithDownload | torrent_garden/ui/state/torrent/action.py:8-14 | exactly that torrent gets one more download |
| TorrentView.ViewDownloadCommute | torrent_garden/ui/state/torrent/action.py:8-24 | a view and a download commute |
| TorrentView.TorrentPathReadsBack | torrent_garden/ui/state/torrent/action.py:24 | the redirect is `/t/` followed by the decimal digits of the id, which read back as the id |
| TorrentView.Open | torrent_garden/ui/state/torrent/action.py:8-14 | the stored torrent's download count goes up by one |
| TorrentView.View | torrent_garden/ui/state/torrent/action.py:16-24 | the view count goes up by one, and the redirect goes to the torrent's page |
| TorrentView.PageTorrentState.constructor | torrent_garden/ui/state/torrent/view.py:10-12 | the page starts loading, with no torrent |
| TorrentView.PageTorrentState.OnLoad | torrent_garden/ui/state/torrent/view.py:14-33 | a stored torrent gets one more view and is shown with it; a missing one shows nothing and writes nothing; `is_found` holds exactly when the torrent is stored |
| Text.Lower | torrent_garden/api/torrent.py:123 | same length, with each character lower-cased |
| Text.TrimStart | torrent_garden/ui/state/search_torrents.py:113 | the longest suffix that does not start with whitespace; everything dropped is whitespace |
| Text.TrimEnd | torrent_garden/ui/state/search_torrents.py:113 | the longest prefix that does not end with whitespace; everything dropped is whitespace |
| Text.StripLeadingDotsSpec | torrent_garden/ui/state/search_files.py:70-74 | what is kept is a suffix of the input, and every dropped character is a dot |
| Text.StripLeadingDotsFirst | torrent_garden/ui/state/search_files.py:70-74 | what is kept does not start with a dot, so stripping again changes nothing |
| Text.StripBlank | torrent_garden/ui/state/search_torrents.py:112-116 | a query strips to empty exactly when it is all whitespace |
| Text.StripIdempotent | torrent_garden/ui/state/search_torrents.py:112-116 | stripping twice equals stripping once |
| Text.DecimalString | torrent_garden/ui/state/torrent/action.py:24 | the rendering of an id is non-empty and all digits |
| Text.DecimalRoundTrip | torrent_garden/ui/state/torrent/action.py:24 | parsing the rendering of an id gives the id back |
| Text.DecimalInjective | torrent_garden/ui/state/torrent/action.py:24 | different ids render differently |
| Listing.TotalPagesSpec | torrent_garden/ui/state/browse.py:51-55 | at least one page; with rows and a positive page size, the pages hold the rows with no empty last page |
| Listing.PageNumbersSpec | torrent_garden/ui/state/browse.py:61-68 | the window is consecutive and ascending, and holds exactly the existing pages within 3 of the current one |
| Listing.ClampPage | torrent_garden/ui/state/browse.py:114-122 | the page lands in range: a page already in range is kept, a page below 1 becomes 1 and a page past the end becomes the last page |
| Listing.ToggleSpec | torrent_garden/ui/state/browse.py:136-145 | the ignored column changes nothing; the current column flips the direction; another column becomes the sort column, descending |
| Listing.ToggleTwice | torrent_garden/ui/state/search_torrents.py:136-144 | clicking the current column twice restores the choice |
| Listing.ToggleSelects | torrent_garden/ui/state/search_files.py:134-142 | any click that is not ignored sorts by the clicked column, descending when the column is new |
| Sorting.StrLessIrreflexive | torrent_garden/ui/state/search.py:35-59 | string order is irreflexive |
| Sorting.StrLessTransitive | torrent_garden/ui/state/search.py:35-59 | string order is transitive |
| Sorting.StrLessTotal | torrent_garden/ui/state/search.py:35-59 | any two strings are equal or ordered |
| Sorting.PrecedesOrder | torrent_garden/ui/state/search.py:35-59 | the key order, in either direction, is a strict total order |
| Sorting.InsertPermutes | torrent_garden/ui/state/search.py:35-59 | inserting adds the item and nothing else |
| Sorting.InsertOrdered | torrent_garden/ui/state/search.py:35-59 | inserting into an ordered list keeps it ordered |
| Sorting.InsertStable | torrent_garden/ui/state/search.py:35-59 | an inserted item goes behind every item with the same key |
| Sorting.SortPermutes | torrent_garden/ui/state/search.py:35-59 | the sort is a permutation |
| Sorting.SortOrdered | torrent_garden/ui/state/search.py:35-59 | the result is in key order, descending with `reverse=True` |
| Sorting.SortStable | torrent_garden/ui/state/search.py:35-59 | the items sharing a key keep their original order |
| Sorting.SortSameKey | torrent_garden/ui/state/search.py:35-59 | when all keys are equal nothing moves |
| Columns.SortedTorrentsSpec | torrent_garden/ui/state/search_torrents.py:51-75 | the same torrents; kept in order for a blank column; otherwise in key order and stable |
| Columns.SortedFilesSpec | torrent_garden/ui/state/search_files.py:51-63 | the same files; kept in order for a blank column; otherwise in key order and stable |
| Columns.UnknownTorrentColumnKeepsOrder | torrent_garden/ui/state/search.py:40-59 | an unrecognised torrent column keys everything 0 and keeps the order |
| Columns.UnknownFileColumnKeepsOrder | torrent_garden/ui/state/search.py:61-73 | an unrecognised file column keys everything 0 and keeps the order |
| Browse.KeepCounts | torrent_garden/ui/state/browse.py:159-168 | the filter keeps each torrent whose name contains the query as often as it was loaded, and no other torrent |
| Browse.KeepAppend | torrent_garden/ui/state/browse.py:163-164 | filtering two parts of the page one after the other gives the two filtered parts in the same order, so the filter keeps the loaded order |
| Browse.KeepAll | torrent_garden/ui/state/browse.py:163-164 | when every name matches, the page is kept as loaded; when none does, nothing is kept |
| Browse.FilteredTorrentsSpec | torrent_garden/ui/state/browse.py:159-192 | shows each loaded torrent that matches the lower-cased query, or all of them for an empty query, with multiplicity; with a blank column the page is shown as loaded, or as the matching torrents in their loaded order |
| Browse.BrowseState.constructor | torrent_garden/ui/state/browse.py:28-50 | the class defaults |
| Browse.BrowseState.Load | torrent_garden/ui/state/browse.py:70-89 | stores the page of rows and the row count, stops loading, and changes no choice |
| Browse.BrowseState.SetMode | torrent_garden/ui/state/browse.py:95-100 | the new mode, back to page 1, nothing else changed |
| Browse.BrowseState.SetCount | torrent_garden/ui/state/browse.py:102-107 | the new page size, back to page 1, nothing else changed |
| Browse.BrowseState.SetQuery | torrent_garden/ui/state/browse.py:109-112 | only the query changes |
| Browse.BrowseState.SetPage | torrent_garden/ui/state/browse.py:114-122 | the requested page clamped into range |
| Browse.BrowseState.NextPage | torrent_garden/ui/state/browse.py:124-128 | one page on, unless already on the last page |
| Browse.BrowseState.PrevPage | torrent_garden/ui/state/browse.py:130-134 | one page back, unless already on the first page |
| Browse.BrowseState.SetSort | torrent_garden/ui/state/browse.py:136-145 | `Toggle`, ignoring the "action" column |
| Browse.BrowseState.OnUnmount | torrent_garden/ui/state/browse.py:151-157 | back to loading, with no query, no rows, page 1 and total 0; the choices are kept |
| SearchTorrents.TorrentSearchState.constructor | torrent_garden/ui/state/search_torrents.py:12-31 | the class defaults |
| SearchTorrents.TorrentSearchState.SetQuery | torrent_garden/ui/state/search_torrents.py:78-81 | the new query, back to page 1 |
| SearchTorrents.TorrentSearchState.SetCount | torrent_garden/ui/state/search_torrents.py:83-87 | the new page size, back to page 1 |
| SearchTorrents.TorrentSearchState.SetPage | torrent_garden/ui/state/search_torrents.py:89-97 | the requested page clamped into range |
| SearchTorrents.TorrentSearchState.NextPage | torrent_garden/ui/state/search_torrents.py:99-103 | one page on, unless already on the last page |
| SearchTorrents.TorrentSearchState.PrevPage | torrent_garden/ui/state/search_torrents.py:105-109 | one page back, unless already on the first page |
| SearchTorrents.TorrentSearchState.Search | torrent_garden/ui/state/search_torrents.py:112-151 | a blank query finds nothing and sets the total to 0; otherwise stores the returned rows and count |
| SearchTorrents.TorrentSearchState.SetSort | torrent_garden/ui/state/search_torrents.py:136-144 | `Toggle`, ignoring the "action" column |
| SearchTorrents.TorrentSearchState.OnUnmount | torrent_garden/ui/state/search_torrents.py:153-159 | no query, no results, page 1 and total 0 |
| SearchFiles.Linked | torrent_garden/ui/state/search_files.py:171 | exactly the torrents the file is linked to |
| SearchFiles.LinkedDistinct | torrent_garden/ui/state/search_files.py:171-182 | with no duplicate link rows the linked torrents are pairwise distinct, so more than one of them means several torrents |
| SearchFiles.TargetsDiffer | torrent_garden/ui/state/search_files.py:180-182 | a torrent page and a file's torrent list are different targets |
| SearchFiles.OpenRelated | torrent_garden/ui/state/search_files.py:160-182 | a missing file does nothing; one linked torrent gets a view and is the redirect; several give the file's torrent list; none does nothing |
| SearchFiles.FileSearchState.constructor | torrent_garden/ui/state/search_files.py:11-31 | the class defaults |
| SearchFiles.FileSearchState.SetNameQuery | torrent_garden/ui/state/search_files.py:65-68 | the new name query, back to page 1 |
| SearchFiles.FileSearchState.SetExtQuery | torrent_garden/ui/state/search_files.py:70-74 | the extension query with no leading dot, back to page 1 |
| SearchFiles.FileSearchState.SetCount | torrent_garden/ui/state/search_files.py:76-80 | the new page size, back to page 1 |
| SearchFiles.FileSearchState.SetPage | torrent_garden/ui/state/search_files.py:82-90 | the requested page clamped into range |
| SearchFiles.FileSearchState.NextPage | torrent_garden/ui/state/search_files.py:92-96 | one page on, unless already on the last page |
| SearchFiles.FileSearchState.PrevPage | torrent_garden/ui/state/search_files.py:98-102 | one page back, unless already on the first page |
| SearchFiles.FileSearchState.Search | torrent_garden/ui/state/search_files.py:104-149 | with both queries blank nothing is found and the total is 0; otherwise stores the returned rows and count |
| SearchFiles.FileSearchState.SetSort | torrent_garden/ui/state/search_files.py:134-142 | `Toggle`, ignoring the "actions" column |
| SearchFiles.FileSearchState.OnUnmount | torrent_garden/ui/state/search_files.py:151-158 | no queries, no results, page 1 and total 0 |
| Search.ExtTerm | torrent_garden/ui/state/search.py:105-117 | the extension term never starts with a dot |
| Search.SearchState.constructor | torrent_garden/ui/state/search.py:12-32 | the class defaults |
| Search.SearchState.SetTorrentQuery | torrent_garden/ui/state/search.py:75-78 | stores the torrent query |
| Search.SearchState.SetFileNameQuery | torrent_garden/ui/state/search.py:79-82 | stores the file name query |
| Search.SearchState.SetFileExtQuery | torrent_garden/ui/state/search.py:83-86 | stores the extension query as typed |
| Search.SearchState.SetCount | torrent_garden/ui/state/search.py:87-90 | stores the label and its value |
| Search.SearchState.Search | torrent_garden/ui/state/search.py:92-146 | a blank torrent query finds no torrents; a blank name query with an empty extension term finds no files; otherwise stores the returned rows |
| Search.SearchState.SetTorrentSort | torrent_garden/ui/state/search.py:120-128 | `Toggle`, ignoring the "action" column |
| Search.SearchState.SetFileSort | torrent_garden/ui/state/search.py:130-138 | `Toggle`, ignoring the "actions" column |
| Search.SearchState.OnUnmount | torrent_garden/ui/state/search.py:148-156 | all queries and results cleared, loading off, sort choices kept |

## Left out

- SQL and the ORM. Each query becomes a read of the `Database` fields, or a
  parameter carrying the rows it returns. This covers the page queries of
  `_load_torrents`, `_search_torrents` and `_search_files` (filters, ordering,
  random order, `LIMIT`/`OFFSET`); the UI methods receive their results.
- Sessions and transactions. Each operation runs alone. Concurrent requests,
  rollbacks and the separate commits inside `update_counts` are not modelled
  beyond "a raise leaves the later writes undone".
- Timestamps. `datetime.now` is a parameter `now`, and a datetime is an opaque
  ordinal. As a sort key, a missing `updated_at` counts as 0.
- File and environment I/O. This covers the JSON credentials file and the check
  that it exists, both handled by `create_clients`, and the authentication
  settings. The settings enter `ApiAddTorrent` as `authEnabled`.
- Logging and console output have no model.
- Rendering (`rx.redirect` as an effect, components, pages) and the `yield`
  chaining of events. A redirect is a returned path.
- Text.Lower: lower-cases ASCII letters only. Python's `str.lower` also folds
  non-ASCII letters.
- CountDb.MatchesAny: models `ILIKE '%ext'` in the file-count queries as a
  lower-cased `endswith`. The leading `%` is the pattern's only wildcard, since no
  extension contains `_` or `%`. The database's own case folding is not modelled.
- Browse.BrowseState.SetCount: takes the label and its parsed value. The
  `int(value)` error for a label that is not a number is not modelled. The same
  holds for `SearchTorrents.TorrentSearchState.SetCount`,
  `SearchFiles.FileSearchState.SetCount` and `Search.SearchState.SetCount`.
- Browse.BrowseState.SetMode: takes the parsed `Mode`. The `ValueError` for an
  unknown label is not modelled. The `order` and `_order` fields keep their
  defaults: nothing in the browse state writes them.
- `refresh`, `on_mount` and the metrics and root states only trigger loads. They
  have no model.
- TorrentView.Open and TorrentView.View require the torrent to exist. The code
  dereferences a missing torrent and raises.
- Integers are unbounded. `BigInteger` counters and sizes cannot overflow at the
  sizes in question.
