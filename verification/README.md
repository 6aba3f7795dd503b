# OpenNOW core: a verified model

A Dafny model of the stateful services in OpenNOW's Rust core (`native/opennow-core`): the Store
catalogue cache and its local search, the artwork cache, session discovery and session state,
settings, console PIN lockout, diagnostics, the Discord pipe and request admission. The network,
clocks, hashing, JSON text and Unicode tables are parameters; everything else follows the code.

`dafny verify dfyconfig.toml` checks the whole project (Dafny 4.11).

## How it is laid out

| file | models |
|---|---|
| TypoMatch, Words, Numerals, Ranking | the typo matcher, text normalisation, decimal text, scoring |
| StoreIndex, StoreContents, BoundedPage, StoreQuery | the in-memory index and what it holds, the halving loop, ranked queries and cursor walks |
| StoreLocal, StoreGrowth | the cached documents and the kept index, one call at a time; a walk while the catalogue grows |
| StoreCache, StoreAnswers | the epoch-guarded disk cache as interleaved steps, and what its calls answer |
| ArtworkEviction, ArtworkIndexFile, ArtworkJobs | LRU eviction, the index file, the download queue |
| Discovery, SessionCodec | the strided parallel search, codec evidence and resumes |
| SettingsValues, SettingsKeys, GameCollections, Settings, SettingsStore, SettingsMeaning | normalisation, migrations, the round trip, the store, and what a caller sees of them |
| ConsoleLockout, Redaction, Diagnostics, DiscordFrames, Requests | the small state machines |

Protocols (`StoreCache`, `ArtworkJobs`) are step relations: `Enabled` says when a step can be taken and
`Next` what it makes of each part of the state, and the results quantify over every run. History
fields (`born`, `floors`, the tallies of the download queue) never decide a step. Services the code updates in place are
classes whose methods are tied to a specification function; the lemmas are about that function.

## What the model says about the code

- Acronym does not always beat prefix: `Ranking.AcronymOverPrefix` gives the exact condition, and
  `Ranking.OwnedPrefixOvertakesAcronym` two games that turn the order around.
- A rebuilt index extends the earlier one except when panels contribute games of their own and pages
  bring new ones: `StoreIndex.RebuildExtends` is an equivalence, `StoreIndex.ShelfGameShifts` an input
  on which it does not.
- The artwork index survives every crash unless `index.json` itself is torn while only the backup
  loads; then the fallback path deletes the backup first (`ArtworkIndexFile.AlwaysLoadsIff`).
- `Pending` for a duplicate artwork request is only as good as the first caller's `try_send`
  (`ArtworkJobs.DuplicateIsServedIff`, `ArtworkJobs.DuplicateCanBeDropped`).
- A download that fails after it evicted something leaves the artwork index unmarked but different from
  the written one: exactly when by `ArtworkEviction.ArtworkIndex.StoreDownload`, with an example in
  `ArtworkEviction.UnmarkedDownload`.
- Codec evidence can be lost: an unusable server report followed by a silent answer forgets the codec
  (`SessionCodec.RankFallsIff`, `SessionCodec.UnusableReportForgets`).
- The settings round trip has exactly one exception, the old shortcut pair (`Settings.RoundTripIff`),
  and `set` can reach it (`SettingsStore.OldPairCanBeSet`).
- The bootstrap read refuses a settings file over 1 MiB, which the full load takes; they then agree on
  the graphics device only if it is the default (`Settings.BootstrapAgreesIff`,
  `Settings.BootstrapMissesDevice`).
- A failed save can put an old backup in place of a settings file that was missing: exactly when by
  `SettingsStore.FailedSaveLeaves`, with an example in `SettingsStore.OldBackupReturns`. From any other
  start no run of saves loses the latest settings (`SettingsStore.SavesKeepLatestIff`).
- A poll that overlaps a claim or another poll can drop a pending resume or bring an ended one back
  (`SessionCodec.PendingIsLast`, `SessionCodec.OverlappingPollsMislead`).
- Stopping a session other than the active one forgets the active one
  (`SessionCodec.CloudMatchService.Stop`).
- An oversized log with no line end in its last 5 MiB is dropped whole (`Diagnostics.OversizedTailIff`).
- The lockout counts only failures it could save (`ConsoleLockout.UnsavedNeverCounts`).

## Model

| member | source | states |
|---|---|---|
| `TypoMatch.OneTypoExact` | native/opennow-core/src/store_index.rs:320-345 | the first-mismatch scan says yes exactly when the 64-character prefixes are equal or one insertion, deletion, substitution or adjacent swap apart |
| `TypoMatch.OneTypoSymmetric` | native/opennow-core/src/store_index.rs:320-345 | the order of the two words makes no difference |
| `Words.SplitJoin` | native/opennow-core/src/store_index.rs:31-39 | splitting joined words gives the words back, so an entry's title and its word list always agree |
| `Words.NormalizedTwice` | native/opennow-core/src/store_index.rs:31-39 | normalising is idempotent on lower-cased text, and joins back from its words |
| `Words.SplitAtBlank` | native/opennow-core/src/store_index.rs:31-39 | the words of two parts with a blank between them are those of the one and then of the other |
| `Words.JoinedPrefix` | native/opennow-core/src/store_index.rs:288-289 | a title that starts with the query has all query words but the last as whole words, and starts a word with the last |
| `Ranking.MakeCard` | native/opennow-core/src/store_index.rs:71-76 | title, words and initials of a new entry belong together |
| `Ranking.ScoreEntry` | native/opennow-core/src/store_index.rs:278-316 | the scoring loop yields the base of the match kind plus the best word match of every token plus the ownership bonus, and nothing as soon as one token matches no word |
| `Ranking.BestWordIs` | native/opennow-core/src/store_index.rs:296-311 | a token scores 300 if it is one of the words, else 200 if it starts one, else 100 if it has three bytes and occurs in one, else 30 if it has four and is within one edit of one on 64 characters, and else nothing |
| `Ranking.ScoreIs` | native/opennow-core/src/store_index.rs:278-316 | 12000 for the same words, 11000 for initials that spell the query, else 9000, 7000 or 4000 for a title that starts with, holds or lacks it, plus the scores of the first eight words; 300 more for an owned game |
| `Ranking.TokensAddUp` | native/opennow-core/src/store_index.rs:294-314 | the tokens' scores add up, and one that matches nothing rejects the entry |
| `Ranking.PrefixTokens` | native/opennow-core/src/store_index.rs:294-314 | for a prefix match the token sum is 300 for every token but the last, and 200 or 300 for the last |
| `Ranking.ScoreInBand` | native/opennow-core/src/store_index.rs:278-316 | the score of every kind of match lies in a fixed band that depends only on the number of tokens |
| `Ranking.RankedByKind` | native/opennow-core/src/store_index.rs:278-316 | exact beats all, acronym and prefix beat substring and loose, substring beats loose, whoever owns what, for every query |
| `Ranking.AcronymOverPrefix` | native/opennow-core/src/store_index.rs:285-289 | acronym beats prefix if and only if there are at most five tokens, or six unless only the prefix match is owned, or seven with only the acronym match owned |
| `Ranking.OwnedPrefixOvertakesAcronym` | native/opennow-core/src/store_index.rs:285-315 | two concrete games for which an owned prefix match (11100) overtakes an unowned acronym match (11000) |
| `StoreIndex.AddOne` | native/opennow-core/src/store_index.rs:57-123 | adding keeps ids non-empty and unique, the identity map the inverse of the entry list, and at most 12000 entries |
| `StoreIndex.Index.Add` | native/opennow-core/src/store_index.rs:57-123 | the method grows entries and identities exactly as the addition says: no id, known id, full index, new entry |
| `StoreIndex.Index.AddPanels` | native/opennow-core/src/store_index.rs:125-167 | all shelves of all panels are added in order, each game under its shelf and its alias, with one shelf entry per section that lists a game |
| `StoreIndex.Index.AddPanel` | native/opennow-core/src/store_index.rs:127-165 | the sections of one panel, in order |
| `StoreIndex.Index.AddSection` | native/opennow-core/src/store_index.rs:133-164 | the games of one section, and its shelf if there are any |
| `StoreIndex.Index.AddShelfGame` | native/opennow-core/src/store_index.rs:154-159 | one shelf game: under the shelf, then under the alias |
| `StoreIndex.Index.AddGames` | native/opennow-core/src/store_cache.rs:122-124 | the games of one cached page, each with its place |
| `StoreIndex.Index.AddPages` | native/opennow-core/src/store_cache.rs:113-135 | the page loop follows exactly the chain of cached cursors, stops on a missing page, a last page, an empty or repeated cursor or 100 pages, and records completeness and the upstream cursor |
| `StoreIndex.Index.Rebuild` | native/opennow-core/src/store_cache.rs:112-141 | the rebuilt index is the page chain followed by the panels |
| `StoreIndex.WalkGrows` | native/opennow-core/src/store_cache.rs:116-135 | caching more pages only lengthens the chain that is walked |
| `StoreIndex.PagesOnlyGrows` | native/opennow-core/src/store_cache.rs:116-135 | the page-only index of a larger cache starts with that of the smaller one, entry by entry |
| `StoreIndex.RebuildExtends` | native/opennow-core/src/store_cache.rs:112-141 | with panels the rebuilt index extends the earlier one if and only if the panels added no game of their own or the pages brought no new game |
| `StoreIndex.ShelfGameShifts` | native/opennow-core/src/store_cache.rs:112-141 | one shelf game and two pages for which the rebuilt index does not extend the earlier one |
| `StoreContents.EntryIs` | native/opennow-core/src/store_index.rs:57-123 | every entry is that of the first addition of its game, filed under the categories of that and every later one |
| `StoreContents.IndexedIff` | native/opennow-core/src/store_index.rs:57-123 | a game is indexed exactly when it has an id and fewer than 12000 others came before it |
| `StoreContents.EntriesInOrder` | native/opennow-core/src/store_index.rs:119-123 | entries stand in the order in which their games were first added |
| `StoreContents.ChainBrings` | native/opennow-core/src/store_cache.rs:122-124 | the pages bring all their games in order, each with its place |
| `StoreContents.PanelsBring` | native/opennow-core/src/store_index.rs:125-160 | the panels file every game of every section under its shelf and its alias, and nothing else |
| `StoreContents.AliasIs` | native/opennow-core/src/store_index.rs:135-150 | the alias of a section goes by what its title holds |
| `StoreContents.ShelvesAre` | native/opennow-core/src/store_index.rs:161-164 | a shelf is shown for every section that lists a game |
| `StoreContents.ShelfHolds` | native/opennow-core/src/store_index.rs:125-160 | an indexed game is filed under a section's shelf exactly when the section lists it, unless its own first record names that shelf |
| `StoreContents.CategoryIff` | native/opennow-core/src/store_index.rs:77-103 | the categories of a game: its own, the one it is filed under, and what price, state and technology say |
| `StoreContents.StoresAre` | native/opennow-core/src/store_index.rs:104-111 | the stores of a game, each further one of its variants once |
| `StoreContents.WalkIsChain` | native/opennow-core/src/store_cache.rs:113-135 | the pages taken are linked by their cursors, until the last page, a cursor that is empty, repeated or not cached, or a hundred pages |
| `BoundedPage.HalvingsCount` | native/opennow-core/src/store_catalog_page.rs:76-90 | there are floor(log2(limit)) + 1 page sizes to try |
| `BoundedPage.FetchBoundedPage` | native/opennow-core/src/store_catalog_page.rs:72-92 | the loop settles on the first size that fits, fails or is cancelled, within that many tries, and never returns a page over the budget |
| `BoundedPage.SettledMeans` | native/opennow-core/src/store_catalog_page.rs:72-92 | without failures a page comes back exactly with the first size that fits, and the size error exactly when none does |
| `BoundedPage.FirstDecides` | native/opennow-core/src/store_catalog_page.rs:72-92 | the first attempt that is not just too big decides: a cancellation before or after its fetch, its error, or its page |
| `StoreQuery.RankedIsExact` | native/opennow-core/src/store_index.rs:206-231 | the ranked list holds every matching entry once with its score, best first for a search and in index order otherwise |
| `StoreQuery.KeepIff` | native/opennow-core/src/store_index.rs:209-222 | a filter keeps exactly the entries with the genre and store asked for, in either case, and the category asked for; absent, empty, `featured` and `all` ask for nothing |
| `StoreQuery.RankedIff` | native/opennow-core/src/store_index.rs:206-231 | the ranked list of a request holds exactly the entries that have what it asks for and a score for the words of its search, each with that score |
| `StoreQuery.InvalidIff` | native/opennow-core/src/store_index.rs:170-205 | a request is invalid exactly when a parameter is no text or too long, or its cursor carries no offset up to 12000 for these filters |
| `StoreQuery.GrowthKeepsOffsets` | native/opennow-core/src/store_index.rs:206-231 | offsets of unranked queries survive index growth |
| `StoreQuery.CursorRoundTrip` | native/opennow-core/src/store_index.rs:195-205 | a cursor the index makes is read back as its offset |
| `StoreQuery.WalkStep` | native/opennow-core/src/store_index.rs:243-274 | one page is the next non-empty stretch of the ranked records, within the budget; the only failure is the size error |
| `StoreQuery.PageIsChecked` | native/opennow-core/src/store_index.rs:243-261 | with nothing assumed of the documents, a page shows under the ids of its matches the records that are there, and `store_cache_changed` is the answer exactly when a match of the stretch is no longer there under its id |
| `StoreQuery.PageReports` | native/opennow-core/src/store_index.rs:259-274 | every page says how many games match and are indexed, whether and where more follow, and the first one what can be filtered by |
| `StoreQuery.CursorsAreOffsets` | native/opennow-core/src/store_index.rs:195-274 | following cursors is following offsets |
| `StoreQuery.CursorWalk` | native/opennow-core/src/store_index.rs:195-274 | following `nextCursor` from the empty cursor yields every match exactly once in rank order in non-empty pages within the budget and ends, or stops with the size error |
| `StoreLocal.RebuiltIsReadable` | native/opennow-core/src/store_cache.rs:109-149 | every entry of an index rebuilt from cached documents can be read back from them under its own id, so `store_cache_changed` cannot arise on them |
| `StoreLocal.CachedCatalogueWalk` | native/opennow-core/src/store_cache.rs:106-150 | the cursor walk over a complete cached catalogue, with nothing assumed of the documents |
| `StoreLocal.WalkTakesCached` | native/opennow-core/src/store_cache.rs:113-135 | the pages taken are cached ones, at most a hundred |
| `StoreLocal.WrittenIsFound` | native/opennow-core/src/store_cache.rs:94-102 | a written document is found again and no other is touched |
| `StoreGrowth.GrownWalk` | native/opennow-core/src/store_index.rs:195-274 | a walk without a search text whose first pages came from any earlier indexes, continued by cursor on a larger complete one, returns every match of the larger one exactly once, or stops with the size error |
| `StoreGrowth.EarlierCacheIsPrior` | native/opennow-core/src/store_cache.rs:112-141 | the index of a cache with fewer pages is such an earlier index, with the documents it reads unchanged, unless panels shift positions |
| `StoreLocal.LocalStore.Load` | native/opennow-core/src/store_cache.rs:42-104 | `load_or_fetch` for a page or the panels, one call at a time: the answer, the documents and the kept index for a hit, a refresh, a failed and an unsaved fetch; whatever changes the documents drops the kept index, and what is then cached for the key is what was returned |
| `StoreLocal.LocalStore.IndexFor` | native/opennow-core/src/store_cache.rs:111-148 | kept or rebuilt, the index a local query works on is the one the documents of its scope would give now; none is reported exactly when the first page is not cached |
| `StoreCache.StepKeepsLocks` | native/opennow-core/src/store_cache.rs:72-85 | pruning and recreating weak references keeps one live fetch lock for each file and epoch, held by at most one call |
| `StoreCache.SingleFlight` | native/opennow-core/src/store_cache.rs:72-92 | in every state of every interleaving, two calls inside the fetch section of one file and epoch are the same call, and those waiting there wait for one lock |
| `StoreCache.RunKeepsLocks` | native/opennow-core/src/store_cache.rs:49-103 | this holds in every state of every interleaving |
| `StoreCache.StepPays` | native/opennow-core/src/store_cache.rs:85-103 | one step never starts a fetch that nothing accounts for |
| `StoreCache.FetchedOnce` | native/opennow-core/src/store_cache.rs:72-103 | over every run the fetches for a file and epoch are at most one more than those that failed or left no file, and the times the file went away, all counted in the steps of the run |
| `StoreCache.WaiterTakesWhatStands` | native/opennow-core/src/store_cache.rs:85-89 | a call that finds the file after waiting takes what stands there without fetching, and returns it |
| `StoreCache.WaiterReturnsPredecessors` | native/opennow-core/src/store_cache.rs:72-103 | when the write of one call landed and no step before the second read of another took the file away or rewrote it, the second call returns the value the first fetched, and fetches nothing |
| `StoreCache.StepKeepsFloors` | native/opennow-core/src/store_cache.rs:49-103 | the epoch guard keeps every file on disk at least as young as the last finished refresh of its scope |
| `StoreCache.RunKeepsFloors` | native/opennow-core/src/store_cache.rs:49-103 | this holds in every state of every run with fewer than 2^64 refreshes |
| `StoreCache.RefreshSafety` | native/opennow-core/src/store_cache.rs:49-103 | after a refresh, the disk never again holds a file of its scope captured before it, and no call that begins later returns one |
| `StoreCache.RefreshKeepsOtherScopes` | native/opennow-core/src/store_cache.rs:54-65 | over every run, a file that was there and is gone was lost, pruned, or deleted by a refresh of its own scope in between |
| `StoreAnswers.AnswerIff` | native/opennow-core/src/store_cache.rs:49-103 | in any run a call's answer is settled to be a value exactly when a step of it found the file with that value or fetched it, written or not, and to be an error exactly when its fetch failed or it was cancelled; it never changes |
| `StoreAnswers.CallIsItsOwn` | native/opennow-core/src/store_cache.rs:42-50 | a call stays the one it was begun as |
| `StoreAnswers.RefreshClears` | native/opennow-core/src/store_cache.rs:52-66 | a refresh that answers or fetches has first deleted every file of its scope |
| `StoreAnswers.WriteLandsIff` | native/opennow-core/src/store_cache.rs:94-102 | what was fetched is on disk after its write exactly when it could be written and no refresh began since the call saw the epoch; otherwise the disk stays |
| `StoreAnswers.OthersLeaveDisk` | native/opennow-core/src/store_cache.rs:57-64 | nothing but a write adds a file, and files are deleted one at a time |
| `StoreAnswers.ClockIsRefreshes` | native/opennow-core/src/store_cache.rs:53-54 | the clock by which ages are told counts the refreshes begun |
| `StoreAnswers.NoDeadlock` | native/opennow-core/src/store_cache.rs:49-103 | in every state of every run, while a call is not over some call can go on, and a fetch may bring any value |
| `StoreAnswers.CancelledWhileWaiting` | native/opennow-core/src/store_cache.rs:48-85 | a call can be cancelled before its first section and while it waits for the fetch lock |
| `ArtworkEviction.TallyIsTrue` | native/opennow-core/src/artwork_cache.rs:740-769 | the running totals of the eviction loop are the true sum and count |
| `ArtworkEviction.SortedOldest` | native/opennow-core/src/artwork_cache.rs:746-751 | the order of eviction lists every entry once, strictly by last access and key, with the sum of sizes |
| `ArtworkEviction.GoneIsNeeded` | native/opennow-core/src/artwork_cache.rs:752-770 | an object evicted by the loop is in every oldest-first set of removals that is enough |
| `ArtworkEviction.GoneIsOlder` | native/opennow-core/src/artwork_cache.rs:746-751 | what goes was used no later than anything removable that stays |
| `ArtworkEviction.ArtworkIndex.PruneToLimits` | native/opennow-core/src/artwork_cache.rs:734-773 | true exactly when both limits hold with the incoming object; what goes is the least oldest-first set of removable objects that is enough, or all of them if none is |
| `ArtworkEviction.ArtworkIndex.StoreDownload` | native/opennow-core/src/artwork_cache.rs:351-384 | the answer of every path: over the limits (exactly when it would not fit with everything removable gone, which then is gone), failed rename, no file URL, stored; once stored both limits hold, overwrites included, and the index is what stays plus the new entry, written unless that fails; otherwise the index differs unmarked from the written one exactly when it did not fit as it was and something could be removed |
| `ArtworkEviction.UnmarkedDownload` | native/opennow-core/src/artwork_cache.rs:351-384 | two downloads after which the index file still lists an object that is gone, and the index is not marked |
| `ArtworkEviction.ArtworkIndex.Persist` | native/opennow-core/src/artwork_cache.rs:386-400 | a marked index is written and unmarked, and an unmarked one stays equal to what was written |
| `ArtworkEviction.ArtworkIndex.Lookup` | native/opennow-core/src/artwork_cache.rs:323-349 | a hit is touched and marked, and the index written when a flush is due; a mismatch is dropped; a path that is not a file URL is a miss though touched; the limits keep holding |
| `ArtworkEviction.DiscoveredIff` | native/opennow-core/src/artwork_cache.rs:288-316 | the scan lists exactly the keys with an object file that is not too big, with the extension and size of the last such file and the access time known before or else that of the file |
| `ArtworkEviction.ArtworkIndex.LoadAndReconcile` | native/opennow-core/src/artwork_cache.rs:277-321 | after start-up the index is the discovered files less the least eviction, written unless that fails, and the limits hold if everything can be removed |
| `ArtworkIndexFile.MomentsLoad` | native/opennow-core/src/artwork_cache.rs:695-732 | cut between any two file operations, the old or the new index loads, and once new stays new |
| `ArtworkIndexFile.MomentIs` | native/opennow-core/src/artwork_cache.rs:695-732 | each write has one commit point: cut before it the old index loads, cut after it the new one |
| `ArtworkIndexFile.AnswerIsRight` | native/opennow-core/src/artwork_cache.rs:706-732 | after a reported success the new index loads, after a reported failure the old one |
| `ArtworkIndexFile.AlwaysLoadsIff` | native/opennow-core/src/artwork_cache.rs:717-731 | given that something loads, every moment of every write loads something if and only if the index file itself is not torn |
| `ArtworkIndexFile.AttemptIsExpected` | native/opennow-core/src/artwork_cache.rs:706-732 | one write, complete or cut, leaves a loadable index file |
| `ArtworkIndexFile.CrashConsistent` | native/opennow-core/src/artwork_cache.rs:695-732 | over any sequence of writes, failures and crashes the last index reported saved loads, or one whose write was cut since |
| `ArtworkIndexFile.SucceedsIff` | native/opennow-core/src/artwork_cache.rs:706-732 | a write succeeds exactly when the temporary file is created, written and synced and replaces the index file, at once or after one was set aside; then its index loads |
| `ArtworkIndexFile.LastWriteLoads` | native/opennow-core/src/artwork_cache.rs:695-732 | after any sequence of writes and cuts that ends with an uncut write whose operations succeed, exactly its index loads |
| `ArtworkIndexFile.AsideEnds` | native/opennow-core/src/artwork_cache.rs:719-729 | which files the set-aside path leaves, for every failure |
| `ArtworkIndexFile.IndexFile.WriteIndexAtomic` | native/opennow-core/src/artwork_cache.rs:706-732 | the method passes through exactly those moments, succeeds exactly when those operations do, and then its index is the index file |
| `ArtworkIndexFile.IndexFile.ReplaceAside` | native/opennow-core/src/artwork_cache.rs:719-729 | the path for systems whose rename does not replace |
| `ArtworkJobs.StepConserves` | native/opennow-core/src/artwork_cache.rs:223-266 | every step of callers and workers keeps keys, channel, workers and tallies consistent |
| `ArtworkJobs.RunConserves` | native/opennow-core/src/artwork_cache.rs:223-266 | so does every run |
| `ArtworkJobs.OneLiveJobPerKey` | native/opennow-core/src/artwork_cache.rs:240-265 | each key has at most one live job, and its key is reserved |
| `ArtworkJobs.JobsAreLive` | native/opennow-core/src/artwork_cache.rs:428-434 | a job in the channel or being downloaded is there once and its key is reserved |
| `ArtworkJobs.SentJobsEnd` | native/opennow-core/src/artwork_cache.rs:428-470 | no job is announced or released twice, and once the workers are quiet every job sent was announced once and released once |
| `ArtworkJobs.FirstInFirstOut` | native/opennow-core/src/artwork_cache.rs:240-266 | jobs are received in the order in which they were sent, and the channel holds the rest |
| `ArtworkJobs.ToldIff` | native/opennow-core/src/artwork_cache.rs:223-266 | a call is told `RetryLater` exactly when it backs off, `Unavailable` without a sender or receiver, `Saturated` when the channel is full, and `Pending` when its key is reserved already or its job is sent |
| `ArtworkJobs.WorkersProgress` | native/opennow-core/src/artwork_cache.rs:428-470 | workers that are not quiet can step, and each step reduces what is owed by one |
| `ArtworkJobs.DuplicateIsServedIff` | native/opennow-core/src/artwork_cache.rs:240-265 | a duplicate told `Pending` is served exactly when the call that holds the key was told `Pending` too |
| `ArtworkJobs.DuplicateCanBeDropped` | native/opennow-core/src/artwork_cache.rs:240-265 | for any number of workers and any capacity, a run that ends quiet in which a caller was told `Pending` and nothing was ever announced for its key, because the first caller then found the channel full |
| `ArtworkJobs.NoSenderNoJobs` | native/opennow-core/src/artwork_cache.rs:223-226 | without a sender every call is told `Unavailable` at once, and no key is ever reserved |
| `Discovery.WorkerPass` | native/opennow-core/src/cloudmatch.rs:1518-1534 | a worker asks every fourth region from its own |
| `Discovery.WorkersPartition` | native/opennow-core/src/cloudmatch.rs:1512-1541 | for any number of regions the workers ask each exactly once |
| `Discovery.OrderedIsIndexed` | native/opennow-core/src/cloudmatch.rs:1543 | the sort puts the answers in region order |
| `Discovery.MergeInOrder` | native/opennow-core/src/cloudmatch.rs:1544-1564 | merging ordered answers is asking the regions one after the other |
| `Discovery.AddSessions` | native/opennow-core/src/cloudmatch.rs:1547-1556 | sessions with a known id are passed over |
| `Discovery.DiscoverSessions` | native/opennow-core/src/cloudmatch.rs:1504-1565 | a cancellation comes first; else the first authentication error is the answer; else all sessions found in region order, one for each id, or the incomplete error exactly when there are none and a region failed, the list was incomplete or empty |
| `Discovery.FirstAuthErrorWins` | native/opennow-core/src/cloudmatch.rs:1557 | the first authentication error is the answer, whatever was found before it |
| `Discovery.SearchOutcome` | native/opennow-core/src/cloudmatch.rs:1544-1564 | asking one region after the other has that outcome |
| `Discovery.WithoutAuthError` | native/opennow-core/src/cloudmatch.rs:1544-1564 | without an authentication error the search concludes from all sessions found and whether a region failed |
| `Discovery.EarliestStays` | native/opennow-core/src/cloudmatch.rs:1548-1555 | of sessions with one id the earliest stays, and only that one |
| `Discovery.OrderStays` | native/opennow-core/src/cloudmatch.rs:1547-1556 | the sessions that stay, stay in the order in which they were found |
| `SessionCodec.RankFallsIff` | native/opennow-core/src/cloudmatch.rs:1181-1197 | the rank unreported < request < server falls in exactly one case: an unusable server report followed by an answer that reports none |
| `SessionCodec.RankNeverFalls` | native/opennow-core/src/cloudmatch.rs:644-676 | over any run of updates of one session without unusable reports the rank never falls |
| `SessionCodec.LatestServerCodecStays` | native/opennow-core/src/cloudmatch.rs:644-676 | the stored codec is the latest the server reported |
| `SessionCodec.StoredIs` | native/opennow-core/src/cloudmatch.rs:644-676 | what every event stores: id, status and endpoints of the deciding report, the keyboard layout, the pending mark and the phase |
| `SessionCodec.FirstProfileIs` | native/opennow-core/src/cloudmatch.rs:1181-1197 | the codec first stored of a session: what the server said, or what its creation asked for |
| `SessionCodec.KnownProfileIs` | native/opennow-core/src/cloudmatch.rs:1181-1197 | what was known of the codec is kept exactly when it names one and the news is weaker |
| `SessionCodec.UnusableReportForgets` | native/opennow-core/src/cloudmatch.rs:1181-1197 | three polls after which a codec the server reported is forgotten |
| `SessionCodec.CodecWasOffered` | native/opennow-core/src/cloudmatch.rs:1181-1197 | in any run over any sessions, overlapping calls included, a stored codec was named for that very session, by an answer or by its creation request |
| `SessionCodec.PendingIsLast` | native/opennow-core/src/cloudmatch.rs:210-219 | after a claim and any polls, however they overlap, the resume is pending exactly when the last answered poll had found it pending when it began and did not end it; while it is pending the phase says so |
| `SessionCodec.PendingUntilEnded` | native/opennow-core/src/cloudmatch.rs:805-819 | after a claim and polls one after the other the resume is pending exactly until a poll is ready or failed, and the phase says so |
| `SessionCodec.OverlappingPollsMislead` | native/opennow-core/src/cloudmatch.rs:158-219 | a poll that began before the claim drops the pending mark, and one that began during the resume brings it back after another has seen the session ready |
| `SessionCodec.AdReportForgetsResume` | native/opennow-core/src/cloudmatch.rs:637-640 | an ad report during a resume drops the pending mark |
| `SessionCodec.CloudMatchService.StoreActive` | native/opennow-core/src/cloudmatch.rs:644-676 | what is returned is what is stored, with codec and keyboard layout of the same session kept |
| `SessionCodec.CloudMatchService.Create` | native/opennow-core/src/cloudmatch.rs:103-150 | creation stores the merged information and returns the same |
| `SessionCodec.CloudMatchService.Poll` | native/opennow-core/src/cloudmatch.rs:196-221 | polling prefers the direct answer, marks resume progress, and returns what it stores |
| `SessionCodec.CloudMatchService.Claim` | native/opennow-core/src/cloudmatch.rs:516-561 | a claim is refused outside the live states; otherwise it stores a pending resume |
| `SessionCodec.CloudMatchService.ReportAd` | native/opennow-core/src/cloudmatch.rs:637-641 | an ad report stores and returns its information |
| `SessionCodec.CloudMatchService.Stop` | native/opennow-core/src/cloudmatch.rs:224-312 | stopping takes the named or else the active session; with neither, or when the request fails, nothing changes; otherwise the active session is forgotten, whichever was stopped, and the stopped one is taken off the listed and the conflicting sessions |
| `SettingsValues.ApplyTwice` | native/opennow-core/src/settings.rs:567-818 | every rule is idempotent: choices, clamps, optional numbers, truncation, id lists, tile sizes, nested records |
| `SettingsValues.ApplyKeepsKind` | native/opennow-core/src/settings.rs:647-662 | a rule keeps the JSON type the default has |
| `SettingsMeaning.RulesRepair` | native/opennow-core/src/settings.rs:567-818 | every rule makes whatever it is given valid and, of values of the right type, leaves exactly the valid ones alone |
| `SettingsMeaning.NumbersMoveNearest` | native/opennow-core/src/settings.rs:613-681 | whole numbers move to the nearest valid one |
| `SettingsMeaning.TextsAreReplaced` | native/opennow-core/src/settings.rs:567-612 | texts that are not valid become empty, the fallback or the only choice, or are cut |
| `SettingsMeaning.IdsOneByOne` | native/opennow-core/src/settings.rs:721-743 | the identifiers of a list are those of its items one after the other |
| `SettingsMeaning.GoodTilesAreKept` | native/opennow-core/src/settings.rs:745-757 | of up to 500 home tiles exactly the good ones are kept |
| `SettingsMeaning.ShaderFieldByField` | native/opennow-core/src/settings.rs:760-818 | each field of the shader record is repaired on its own |
| `SettingsMeaning.DefaultsStayIff` | native/opennow-core/src/settings.rs:857-918 | normalising keeps every default but the two written as integers where a fraction is meant |
| `SettingsKeys.RulesFit` | native/opennow-core/src/settings.rs:213-411 | every rule suits the type of its default, for all 128 settings |
| `SettingsKeys.NormalTwice` | native/opennow-core/src/settings.rs:213-411 | normalising one setting twice is normalising it once, whatever value it had |
| `GameCollections.TrimTwice` | native/opennow-core/src/settings.rs:526-530 | trimming is idempotent |
| `GameCollections.NormalizedAgain` | native/opennow-core/src/settings.rs:498-565 | accepted collections are accepted again unchanged |
| `GameCollections.AcceptedIdsDistinct` | native/opennow-core/src/settings.rs:514-525 | accepted collections have distinct ids that are not blank |
| `GameCollections.AcceptedIff` | native/opennow-core/src/settings.rs:498-565 | collections are accepted exactly when there are at most a hundred, each is usable, and no two share an id; then only their names change, which are trimmed |
| `GameCollections.TrimIs` | native/opennow-core/src/settings.rs:526-530 | trimming takes away white space at both ends and nothing else |
| `Settings.BuildIsSane` | native/opennow-core/src/settings.rs:213-411 | the real defaults and rules meet everything the store-level results ask for |
| `Settings.NormalizeTwice` | native/opennow-core/src/settings.rs:213-411 | `normalize` is idempotent for every map of values |
| `Settings.ReloadIs` | native/opennow-core/src/settings.rs:43-134 | loading what a store saved gives back its settings, with the old shortcut pair rewritten, and its unknown fields |
| `Settings.RoundTripIff` | native/opennow-core/src/settings.rs:413-443 | the round trip is exact if and only if the store does not hold full screen = F10 with screenshot = F11 |
| `Settings.LoadedIsProper` | native/opennow-core/src/settings.rs:43-134 | whatever the file holds, a full load that succeeds gives normalised settings, accepted collections, the current policy mark, and unknown fields none of which is a setting or the HDR capability |
| `Settings.SecondLoadIsExact` | native/opennow-core/src/settings.rs:43-134 | what a full load produced, saved and loaded again, is the same: migrations happen once |
| `SettingsMeaning.PlainLoads` | native/opennow-core/src/settings.rs:59-95 | most settings are what the file says, or the default, normalised |
| `SettingsMeaning.CollectionsLoad` | native/opennow-core/src/settings.rs:62-74 | a full load fails exactly on collections that are refused |
| `SettingsMeaning.AccelerationLoads` | native/opennow-core/src/settings.rs:75-81 | mouse acceleration was a switch |
| `SettingsMeaning.ClockLoads` | native/opennow-core/src/settings.rs:84-93 | the old clock setting counts where the new one is missing |
| `SettingsMeaning.OnboardingLoads` | native/opennow-core/src/settings.rs:53-58 | a file without the onboarding flag is from someone who has been through it |
| `SettingsMeaning.ShortcutsLoad` | native/opennow-core/src/settings.rs:413-443 | the old shortcut pair becomes the new one and the overlay leaves the corner that went with it |
| `SettingsMeaning.PolicyLoads` | native/opennow-core/src/settings.rs:113-132 | console mode by a pad is kept only with the current policy mark, which a load sets |
| `SettingsMeaning.OthersArePassed` | native/opennow-core/src/settings.rs:83-95 | the other fields are kept as they are, the HDR capability excepted |
| `SettingsMeaning.ReadOnlyLoads` | native/opennow-core/src/settings.rs:35-41 | the bootstrap read migrates nothing |
| `Settings.BootstrapAgreesIff` | native/opennow-core/src/settings.rs:466-484 | the bootstrap read of the graphics device agrees with the full load if and only if the file has at most 1 MiB or the device it names is normalised like the default |
| `Settings.BootstrapMissesDevice` | native/opennow-core/src/settings.rs:35-41 | a file over the limit whose device the full load gives and the bootstrap read does not |
| `SettingsStore.TakesOne` | native/opennow-core/src/settings.rs:59-95 | one field of the file changes one setting or one unknown field, and the old clock setting never overrides an explicit new one |
| `SettingsStore.Store.Normalize` | native/opennow-core/src/settings.rs:213-411 | every setting becomes its normalised value |
| `SettingsStore.Store.TakeFields` | native/opennow-core/src/settings.rs:59-95 | the loading loop takes over every field in key order, or stops on refused collections |
| `SettingsStore.Store.Settle` | native/opennow-core/src/settings.rs:110-133 | migrations, normalisation and the save they call for, which is made only when there is a file |
| `SettingsStore.Store.LoadWithPolicy` | native/opennow-core/src/settings.rs:43-134 | loading gives exactly that result, a read-only load taking a file over 1 MiB as unreadable and leaving the files alone; an unreadable file is set aside, migrations are saved, and a full load that succeeds leaves the store as `set` and `reset` need it |
| `SettingsStore.ChangeStaysProper` | native/opennow-core/src/settings.rs:168-190 | a change keeps the store normalised |
| `SettingsStore.ChangeTouchesOnly` | native/opennow-core/src/settings.rs:168-190 | a change touches the setting itself, its named side effects, and nothing else |
| `SettingsMeaning.SetFailsIff` | native/opennow-core/src/settings.rs:140-166 | `set` fails exactly on an unknown name, a bad device name, refused collections, a bad proxy address, a proxy switched on without one, or a failed save |
| `SettingsMeaning.SetGives` | native/opennow-core/src/settings.rs:140-196 | what was set is there, in its normal form |
| `SettingsMeaning.SetFilesAre` | native/opennow-core/src/settings.rs:140-196 | the files after `set` are those of a save of the new settings, unless the change is refused |
| `SettingsMeaning.MicrophoneEffect` | native/opennow-core/src/settings.rs:170-173 | voice activation forgets the microphone's device |
| `SettingsMeaning.ThemeEffect` | native/opennow-core/src/settings.rs:174-182 | a theme pack sets light or dark and ends an accent override |
| `SettingsMeaning.ConsoleEffect` | native/opennow-core/src/settings.rs:187-190 | leaving console mode at start-up ends switching to it by a pad |
| `SettingsStore.SetStaysProper` | native/opennow-core/src/settings.rs:140-196 | whatever `set` is given, the settings stay proper |
| `SettingsStore.OldPairCanBeSet` | native/opennow-core/src/settings.rs:140-196 | from any store two accepted changes lead to the old shortcut pair, and what is then saved is not what loads |
| `SettingsStore.Store.Set` | native/opennow-core/src/settings.rs:140-196 | `set` refuses and leaves the files alone, or changes and saves; a refusal or a failed save leaves the settings as they were; the reply and both files on every path |
| `SettingsStore.ResetIs` | native/opennow-core/src/settings.rs:198-205 | a reset gives defaults, the onboarding excepted |
| `SettingsStore.Store.Reset` | native/opennow-core/src/settings.rs:198-211 | a reset saves and returns the defaults, the onboarding excepted; one that cannot be saved leaves the settings as they were; both files on every path |
| `SettingsStore.Store.Save` | native/opennow-core/src/settings.rs:445-463 | the settings file and its backup after a save, whichever of its file operations fail; it succeeds exactly when known and unknown fields were moved into place |
| `SettingsStore.SavedIs` | native/opennow-core/src/settings.rs:445-463 | when a save succeeds, and what the backup is then |
| `SettingsStore.FailedSaveLeaves` | native/opennow-core/src/settings.rs:445-463 | a failed save leaves the settings file as it was if and only if neither of two failures of the last move occurs: with no file before, an older backup takes its place; with one set aside, it stays the backup |
| `SettingsStore.OldBackupReturns` | native/opennow-core/src/settings.rs:456-461 | an unreadable settings file set aside at start-up, and a first save that fails, after which an old backup is the settings file |
| `SettingsStore.SavesKeepLatestIff` | native/opennow-core/src/settings.rs:445-463 | over every run of saves with any failures the settings last saved are the file, or the backup while there is no file; this holds for all runs if and only if the start is not a backup without a settings file |
| `ConsoleLockout.FailuresAfter` | native/opennow-core/src/console_profiles.rs:294-304 | after n wrong PINs: n modulo 5 counted, the lock level, and the lock of the last full round |
| `ConsoleLockout.RateBound` | native/opennow-core/src/console_profiles.rs:281-304 | the wrong PIN after k full rounds comes at least the first k locks after the first one |
| `ConsoleLockout.BoundIsAttained` | native/opennow-core/src/console_profiles.rs:281-304 | the bound is exact: wrong PINs can be checked at exactly those times |
| `ConsoleLockout.LockoutHolds` | native/opennow-core/src/console_profiles.rs:114-238 | the bound holds however verification, PIN changes and PIN removals are mixed |
| `ConsoleLockout.RemainingIsExact` | native/opennow-core/src/console_profiles.rs:281-304 | the attempts a reply announces are exactly the wrong PINs left before the gate closes, whenever they are entered |
| `ConsoleLockout.SameCounter` | native/opennow-core/src/console_profiles.rs:147-231 | which of the calls offers the wrong PIN makes no difference |
| `ConsoleLockout.UnsavedNeverCounts` | native/opennow-core/src/console_profiles.rs:256-271 | wrong PINs whose failure cannot be saved are never counted |
| `ConsoleLockout.VerifyReplies` | native/opennow-core/src/console_profiles.rs:194-238 | what a verification replies in each case: no PIN, closed gate, no PIN offered, right PIN, wrong PIN with attempts left or not |
| `ConsoleLockout.ChangeReplies` | native/opennow-core/src/console_profiles.rs:114-192 | a PIN is changed or removed exactly with the right current one, a first one is set without any, and every refusal says why |
| `ConsoleLockout.LocksLast` | native/opennow-core/src/console_profiles.rs:15-16 | the locks last half a minute, a minute, five minutes and then a quarter of an hour |
| `ConsoleLockout.ConsoleProfiles.VerifyPin` | native/opennow-core/src/console_profiles.rs:194-238 | one verification: ok with a PIN set exactly if it matches, which clears the counter, and otherwise one more failure; the new profile and the whole reply |
| `ConsoleLockout.ConsoleProfiles.ChangePin` | native/opennow-core/src/console_profiles.rs:114-158 | setting a PIN: replaced exactly if the current one offered matches, set at once where there is none; the new profile and the whole reply |
| `ConsoleLockout.ConsoleProfiles.RemovePin` | native/opennow-core/src/console_profiles.rs:160-192 | clearing a PIN: gone exactly if the one offered matches; the new profile and the whole reply |
| `ConsoleLockout.ConsoleProfiles.Forget` | native/opennow-core/src/console_profiles.rs:240-250 | forgetting a user removes just that profile |
| `Redaction.RedactedBytes` | native/opennow-core/src/diagnostics.rs:401-429 | redacted text is at most four bytes over its limit |
| `Redaction.RedactedBytesTight` | native/opennow-core/src/diagnostics.rs:419-424 | and four bytes over is reached |
| `Redaction.NothingSensitive` | native/opennow-core/src/diagnostics.rs:403-427 | split at its spaces the output is a prefix of the words of the text, each sensitive one masked, followed by the ellipsis exactly when some were left out |
| `Redaction.KeptIsLongest` | native/opennow-core/src/diagnostics.rs:416-425 | as many words are kept as fit |
| `Redaction.TokensAtSpace` | native/opennow-core/src/diagnostics.rs:403 | the words of a text are split at its white space |
| `Redaction.Redact` | native/opennow-core/src/diagnostics.rs:401-429 | the loop yields the longest run of rendered words that fits, with an ellipsis if some were left out |
| `Redaction.RedactLines` | native/opennow-core/src/diagnostics.rs:489-501 | redacted lines are at most one byte over their limit |
| `Redaction.LinesTight` | native/opennow-core/src/diagnostics.rs:489-501 | and one byte over is reached |
| `Redaction.LinesFit` | native/opennow-core/src/diagnostics.rs:489-501 | lines that all fit are all there, redacted, in order |
| `Redaction.LinesEndIff` | native/opennow-core/src/diagnostics.rs:489-501 | the lines end exactly when none is left or fewer than four bytes are |
| `Diagnostics.EntryIsOneLine` | native/opennow-core/src/diagnostics.rs:431-436 | every entry becomes exactly one line, far below the log limit |
| `Diagnostics.LimitsHold` | native/opennow-core/src/diagnostics.rs:192-244 | whatever file operation fails, log files that start within 5 MiB stay within it |
| `Diagnostics.RecordKeepsTail` | native/opennow-core/src/diagnostics.rs:221-244 | one record keeps previous + current a line-aligned end of everything recorded |
| `Diagnostics.LogsAreTail` | native/opennow-core/src/diagnostics.rs:192-244 | so does any run of records |
| `Diagnostics.RecordIs` | native/opennow-core/src/diagnostics.rs:192-244 | one record appends its line, or starts a new log with it and makes the current one the previous |
| `Diagnostics.NothingRecentIsLost` | native/opennow-core/src/diagnostics.rs:192-244 | over any run of records what is kept is everything, or more than 5 MiB of it |
| `Diagnostics.CurrentIsKept` | native/opennow-core/src/diagnostics.rs:192-244 | whatever fails, a log that is not oversized is still there |
| `Diagnostics.OversizedRecordIs` | native/opennow-core/src/diagnostics.rs:206-219 | a record that finds the log oversized writes its line only once the end is copied and the log emptied |
| `Diagnostics.OversizedTailIff` | native/opennow-core/src/diagnostics.rs:209-214 | what is kept of an oversized log starts at a line of it if and only if its last 5 MiB hold a line end |
| `Diagnostics.OversizedIsCut` | native/opennow-core/src/diagnostics.rs:206-218 | an oversized log found at start-up, its last line complete or not, becomes that tail as the previous log and an empty current one, within the limits |
| `Diagnostics.DiagnosticsService.RotateLog` | native/opennow-core/src/diagnostics.rs:192-219 | both files after rotation, whichever operation fails: the size, the removal, the rename, a copy that stops half-way, the truncation |
| `Diagnostics.DiagnosticsService.Record` | native/opennow-core/src/diagnostics.rs:221-244 | the entry joins the last 1200, its line the log |
| `DiscordFrames.Le32RoundTrip` | native/opennow-core/src/discord.rs:196-209 | reading a written 32-bit little-endian number gives it back |
| `DiscordFrames.Le32Inverse` | native/opennow-core/src/discord.rs:208-209 | writing a number that was read gives its bytes back |
| `DiscordFrames.FrameRoundTrip` | native/opennow-core/src/discord.rs:191-220 | a written frame is read back, taking exactly its bytes |
| `DiscordFrames.FrameBytes` | native/opennow-core/src/discord.rs:191-201 | on the wire: opcode and length, least significant byte first, and the body |
| `DiscordFrames.ReadFailsIff` | native/opennow-core/src/discord.rs:203-220 | each error of a read is given exactly for its reason |
| `DiscordFrames.StreamRoundTrip` | native/opennow-core/src/discord.rs:191-220 | any frames written one after the other are read back in order, whatever follows |
| `DiscordFrames.ReadTakesAFrame` | native/opennow-core/src/discord.rs:203-220 | a frame that was read tells exactly which bytes were taken |
| `DiscordFrames.Pipe.WriteFrame` | native/opennow-core/src/discord.rs:191-201 | a frame is appended, or refused with nothing written when its body is over 1 MiB |
| `DiscordFrames.Pipe.ReadFrame` | native/opennow-core/src/discord.rs:203-220 | reading yields the frame or the error the front of the stream calls for |
| `Requests.BoundsHold` | native/opennow-core/src/requests.rs:32-50 | at most eight requests are active, at most four of them background work |
| `Requests.ForegroundRefused` | native/opennow-core/src/requests.rs:36-42 | a foreground request with an unused id is refused only with at least four foreground requests active |
| `Requests.RefusedIff` | native/opennow-core/src/requests.rs:32-50 | a request is refused exactly when its id is in use, eight are active, or it is background work and four of those are |
| `Requests.BackgroundIff` | native/opennow-core/src/requests.rs:33-35 | background work are the catalogue and artwork calls and pinging the regions |
| `Requests.PermitsMatchEntries` | native/opennow-core/src/requests.rs:43-71 | live permits and entries correspond one to one |
| `Requests.CancelledIff` | native/opennow-core/src/requests.rs:51-55 | a permit is cancelled exactly when a cancel named its id while it held that id |
| `Requests.Requests.Admit` | native/opennow-core/src/requests.rs:32-50 | refused exactly on a used id, eight active, or four background; a new permit starts uncancelled |
| `Requests.Requests.Cancel` | native/opennow-core/src/requests.rs:51-55 | a cancel sets the token of the permit now holding the id and no other |
| `Requests.Requests.Release` | native/opennow-core/src/requests.rs:63-71 | dropping a permit removes its entry |

## Left out

- HTTP, headers, URL trust checks, GraphQL documents, OAuth and QR login: fetches are arbitrary results.
- SHA-256, scrypt, base64, JSON text: scopes, file keys and artwork keys are their digests (taken as distinct, artwork keys as numbers in text order), PIN matching is an arbitrary predicate, encoding an invertible codec.
- Case folding and Unicode tables: text arrives lower-cased, `alnum`, `space`, `control` and `sensitive` are arbitrary predicates on characters or words.
- The 16-character filter fingerprint in cursors is an arbitrary function of the filters: a collision of two filters would let one's cursor be read by the other, as in the code. The trimming of the search text is left out, since normalising removes blanks anyway.
- The per-query memo of documents already read is not visible in the model: a document is looked up as if it were read once.
- Deletions during a refresh are assumed to succeed and a file that is present can be read; the code ignores a failed deletion and takes an unreadable file as absent. A corrupted file is the step `LoseFile`.
- StoreCache.RefreshSafety: assumes fewer than 2^64 refreshes, because the epoch counter wraps around.
- StoreCache's pruning (`prune`) may remove any files; which ones it picks is not modelled.
- StoreLocal.LocalStore.IndexFor: is about calls one at a time; under overlapping calls a refresh clears the index before it deletes files, so a rebuild can slip between and only the id check of `query` remains, with what `StoreQuery.PageIsChecked` says of it.
- The Store request registry and its lock (`store_requests.rs`): a waiting call may be cancelled, no more.
- Turning an upstream answer into a page (`page_result`): it only checks that the cursor advanced.
- Artwork downloads themselves, the retry back-off times (`record_failure`) and how long ago the index was flushed; back-off and a due flush appear as flags of the call. Sizes are unbounded numbers, so the code's sum of sizes is assumed not to overflow.
- Durability of a rename without a directory sync is assumed, as is its atomicity.
- The real threads and clock of discovery: the answer of a region includes its timeout and the cancellation check before it.
- SessionCodec.CloudMatchService.Poll: is one call from start to end. Overlapping calls are the events of `SessionCodec.Event`, each of which takes effect when it stores its answer; the lemmas about runs hold for them, `SessionCodec.PendingUntilEnded` excepted, which asks for polls one after the other. How sessions come to be listed or named in a conflict is not modelled.
- URL, zone, server address and application id of a session; the trust checks that decide whether the direct poll is made are part of whether a direct answer exists.
- SettingsStore.Store.Save: does not claim crash safety, since between its two renames no settings file exists and loading reads only that file; it is about the files once the call has returned. The temporary file is not among them, and whether each operation succeeds is a parameter.
- The texts under which settings are stored are not spelled out: naming is any one-to-one function under which the policy version, the HDR capability and the old clock setting name no setting, and the new clock setting has its own text (`Settings.NamesApart`). The length of a settings file is any function of its fields.
- SettingsStore.Store.Normalize: takes the settings one by one in any order, where the code names them one by one; no setting has two rules. JSON numbers are integers or reals, so the rounding of 64-bit floats is not modelled.
- The local-file-URL check and proxy address normalisation are arbitrary functions.
- ConsoleLockout.LockoutHolds: is about sequential calls; overlapping ones copy and replace the profile map, so counts can be lost.
- Loading and the file format of console profiles.
- The snapshot and export of diagnostics, and the tail of the native log.
- Partial writes to the Discord pipe, and how much of a stream is used up by a read that hits its end (the model uses up all).
- The thread-local current cancellation of requests (`scope`).
- The Qt shell, the Playnite plugin, packaging and scripts.
