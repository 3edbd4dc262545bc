# loxdb sync core, modelled in Dafny

loxdb mirrors a Letterboxd user's film diary and ratings into a local
database, then enriches the stored movies with TMDB data. This project
models the part of loxdb that decides what gets fetched and written:

- the **sync tracker** (`SyncRepository`), whose `Sync` records move through
  Pending, In Progress, and then Complete, Skipped or Failed;
- the **batch claim** of requested entry syncs;
- the **Letterboxd fetcher** (`tryLetterboxd`) and the page walkers built on
  it: popular-movie pages, a user's rated watches, diary rows, lists and the
  profile page;
- the **incremental watch sync** that saves a user's watches page by page;
- the **managed sync jobs**: popular movies by year and by genre, movie
  collections, movie credits, cast and crew people, and the two
  missing-movies jobs;
- the **user repository**: credential stripping, login, the remember-me
  token and the choice of the next user to sync;
- the **logger** and its level filter.

Stored tables are Dafny classes that hold a `map` or `seq` field. The
operations that update them in place are methods with `modifies` clauses.
Each loop is proved against a recursive specification function, and the
promised properties are lemmas about those functions. Everything the
program reaches over the network or the clock is a parameter:

- HTTP pages become functions from page number or URL to a result;
- the HTML extractor's output becomes records with optional fields;
- the time is an integer `now`;
- `randomUUID` is a string argument;
- the TMDB client and the people and movie repositories become functions.

Thrown values are modelled by `Failures.Thrown`: an `Error` subclass, a
thrown string, or anything else. A `Result` carries either the value or
what was thrown.

## Model

| member | source | states |
|---|---|---|
| DbTypes.StatusTagRoundTrip | src/common/types/db.ts:25-31 | each of the five sync statuses reads back from its stored string tag, so the tags are distinct |
| DbTypes.TypeTagRoundTrip | src/common/types/db.ts:33-48 | every sync type reads back from its tag |
| DbTypes.TagsDiffer | src/common/types/db.ts:33-48 | two different sync types never share a tag |
| DbTypes.FirstWithTagFinds | src/common/types/db.ts:33-48 | the tag lookup returns the first enum member carrying the tag |
| DbTypes.Ordinal | src/common/types/db.ts:33-48 | every sync type appears in the list of all types |
| DbTypes.TriggerTagRoundTrip | src/common/types/db.ts:50-53 | the two triggers, "system" and "user", read back from their tags |
| EntrySyncEntity.RequestedItem | src/db/entities/LetterboxdUserEntrySync.ts:6-43 | a new work item is Requested, has no batch id, and keeps its id, user and type |
| EntrySyncRepo.ClaimAll | src/db/repositories/LetterboxdUserEntrySyncRepo.ts:21-24 | the bulk update claims every row in place and keeps the row count |
| EntrySyncRepo.RequestedRows | src/db/repositories/LetterboxdUserEntrySyncRepo.ts:22 | the rows the update matches are Requested rows of the table |
| EntrySyncRepo.InBatch | src/db/repositories/LetterboxdUserEntrySyncRepo.ts:30 | the read-back rows are Queued table rows that carry the batch id |
| EntrySyncRepo.NoneLeftRequested | src/db/repositories/LetterboxdUserEntrySyncRepo.ts:21-24 | after the claim no row is left Requested |
| EntrySyncRepo.FreshBatchReadsBackClaimed | src/db/repositories/LetterboxdUserEntrySyncRepo.ts:7-36 | with a fresh batch id the read-back is exactly the claimed Requested rows, so the counts agree |
| EntrySyncRepo.EntrySyncRepository.QueueRequested | src/db/repositories/LetterboxdUserEntrySyncRepo.ts:19-37 | claims every Requested row and returns [] when none was affected. Otherwise it returns the batch, or throws the mismatch error when the read-back count differs from the affected count. With a fresh id it returns the claimed rows |
| EntrySyncRepo.SecondClaimFindsNothing | src/db/repositories/LetterboxdUserEntrySyncRepo.ts:8-18 | a second claim right after the first changes nothing, the race the comment guards against |
| EntrySyncRepo.StaleBatchIdMismatch | src/db/repositories/LetterboxdUserEntrySyncRepo.ts:30-34 | a batch id already on a Queued row makes the read-back count exceed the affected count |
| Fetcher.NormaliseUrl | src/lib/letterboxd.ts:40-42 | a URL without "http" gets the Letterboxd origin prefixed, others are kept |
| Fetcher.NormaliseIdempotent | src/lib/letterboxd.ts:40-42 | normalising twice is normalising once |
| Fetcher.HostPiece | src/lib/letterboxd.ts:44 | the third `/`-piece of scheme//host/rest is the host |
| Fetcher.RelativePathAllowed | src/lib/letterboxd.ts:40-46 | every site-relative path passes the host check |
| Fetcher.ForeignHostPieces | src/lib/letterboxd.ts:40-46 | a full URL on another host is kept as given and fails the host check |
| Fetcher.ForeignHostRefused | src/lib/letterboxd.ts:44-46 | a foreign host throws the invalid-URL error before any request |
| Fetcher.TryLetterboxd | src/lib/letterboxd.ts:35-69 | the fetcher as written: a relative URL gets the site origin, a foreign host or tries ≥ MAX_TRIES throws, a response ends it, a retryable failure waits 2^tries ms and retries with the same count, any other failure is rethrown |
| Fetcher.TryLetterboxdBounded | src/lib/letterboxd.ts:35-69 | the same fetcher with the count advanced on each retry, as the try limit intends |
| Fetcher.TryLimitChecked | src/lib/letterboxd.ts:48-50 | at or past MAX_TRIES (5) the fetcher throws "Exceeded max tries" without a request |
| Fetcher.NonRetryableRethrown | src/lib/letterboxd.ts:58-68 | an error other than an axios ECONNRESET/ENOTFOUND is rethrown unchanged after one request |
| Fetcher.AsWrittenNeverExceeds | src/lib/letterboxd.ts:62-65 | as written, every retryable failure is retried with the same counter and the same 2^tries wait, so the limit is never reached |
| Fetcher.SixResetsExample | src/lib/letterboxd.ts:65 | six connection resets make six requests as written; the corrected fetcher stops after five and throws |
| Fetcher.BoundedRequests | src/lib/letterboxd.ts:48-65 | the corrected fetcher makes at most MAX_TRIES − tries requests |
| Fetcher.CorrectedBackoff | src/lib/letterboxd.ts:64-65 | corrected, five resets wait 1, 2, 4, 8 and 16 ms and then throw the limit error |
| LetterboxdMovies.ScrapeMovieByUrl | src/lib/letterboxd.ts:259-272 | a film page gives its TMDB id, its headline as name and the URL as slug; a failed fetch propagates |
| LetterboxdMovies.ScrapeMovieItem | src/lib/letterboxd.ts:216-254 | name precedence: a truthy film-page headline, then the poster's filmName, then the image alt. A non-zero TMDB id is kept. The slug and the average rating come from the poster |
| LetterboxdMovies.ElementsToProcess | src/lib/letterboxd.ts:212-214 | a page is truncated to maxMoviesForPage elements as a prefix, and kept whole without a cap |
| LetterboxdMovies.ScrapeMoviesByPage | src/lib/letterboxd.ts:197-257 | an empty page gives []; otherwise one movie per processed element, never more than the cap |
| LetterboxdMovies.ScrapeMoviesOverPages | src/lib/letterboxd.ts:152-189 | the result extends the accumulator passed in |
| LetterboxdMovies.WalkStops | src/lib/letterboxd.ts:172-180 | on an empty batch, the last page or a reached cap, the walk returns the accumulator plus this page's batch |
| LetterboxdMovies.HookOnlyOnFirstPage | src/lib/letterboxd.ts:171-188 | processPage runs on the first page only; the recursive call continues without it |
| LetterboxdMovies.WalkWithinCap | src/lib/letterboxd.ts:169-177 | without processPage the walk never returns more than maxMovies movies |
| LetterboxdMovies.CapCutsSecondPage | src/lib/letterboxd.ts:169-180 | a cap of 3 over two-movie pages takes the whole first page and one movie of the second |
| LetterboxdWatches.RatingMatch | src/lib/letterboxd.ts:422 | the matched rating has one or two digits |
| LetterboxdWatches.RatingOfRatedClass | src/lib/letterboxd.ts:422-435 | a class string starting "rated-N" gives N |
| LetterboxdWatches.RatingSkipsRatingClass | src/lib/letterboxd.ts:425-427 | the leading "rating " class does not disturb the match |
| LetterboxdWatches.RatingOfRatingSpan | src/lib/letterboxd.ts:424-435 | the span class "rating rated-N" gives N half-stars |
| LetterboxdWatches.RatingSkipsChar | src/lib/letterboxd.ts:427 | the regex search moves past any character that cannot start a match |
| LetterboxdWatches.ParseWatchPoster | src/lib/letterboxd.ts:274-292 | a row without a `.film-poster` throws the TypeError of reading `filmSlug` of undefined. With a film slug, the slug and the film page's TMDB id are recorded, and a failed film-page fetch propagates. Without one the record is empty |
| LetterboxdWatches.ParseViewingData | src/lib/letterboxd.ts:303-322 | a rating of 0 or none is dropped; heart iff exactly one liked icon; a watch date only when present and valid |
| LetterboxdWatches.WatchEntry | src/lib/letterboxd.ts:365-375 | a watch combines the poster's slug and id, the image alt and the viewing data |
| LetterboxdWatches.WatchLimit | src/lib/letterboxd.ts:357-361 | with a truthy maxSync the page stops before a sort id passes maxSync; otherwise every element is taken |
| LetterboxdWatches.ScrapedPage | src/lib/letterboxd.ts:335-420 | the scrape of a fetched page as a value: a fetch error propagates; otherwise the posters up to the cap, each numbered in turn, or the first poster's failure |
| LetterboxdWatches.ScrapeWatchesByPage | src/lib/letterboxd.ts:335-420 | equals ScrapedPage. Sort ids run on from syncCount + 1 and never pass a truthy maxSync. Every date is the collection date. Records are in page order, and the first failing watch's error propagates |
| LetterboxdWatches.FirstRatedClass | src/lib/letterboxd.ts:488-489 | the chosen class is the first one starting "rated-", or none |
| LetterboxdWatches.DiaryEntry | src/lib/letterboxd.ts:465-512 | a row without a `.film-poster` throws the TypeError of reading `filmSlug` of undefined, and that and a failed film-page fetch are its only errors. Diary field rules: a movie id only for a "movie" type, stars from the rated class, heart iff three like spans, rewatch unless the status is off, date from the day link |
| LetterboxdWatches.DiaryStars | src/lib/letterboxd.ts:486-495 | a diary row's stars are half the number after `rated-` in its first such class, and absent without a class or a `rated-` class |
| LetterboxdWatches.InDirection | src/lib/letterboxd.ts:457-461 | going up processes the page's rows in reverse order, going down in page order |
| LetterboxdWatches.ScrapeDiaryEntriesByPage | src/lib/letterboxd.ts:441-516 | a fetch error propagates. Otherwise the page succeeds iff every row's entry does, and entry k is the k-th row's entry in direction order. A failed page carries the error of the first failing row, with every row before it succeeding |
| LetterboxdWatches.DiaryUpReversesDown | src/lib/letterboxd.ts:459-461 | direction "up" gives the "down" entries reversed |
| LetterboxdWatches.DiaryDateOfDayLink | src/lib/letterboxd.ts:506-509 | a day link /user/films/diary/for/y/m/d/ gives the date y/m/d |
| LetterboxdAccounts.GetUserDetails | src/lib/letterboxd.ts:80-117 | an axios 404 means not found, any other error propagates. Patron implies pro. The name and avatar are taken only when exactly one element matches |
| LetterboxdAccounts.PresentIds | src/lib/letterboxd.ts:592-595 | the list keeps only the films that have an id, so it is no longer than the film list |
| LetterboxdAccounts.ScrapeListByUrl | src/lib/letterboxd.ts:567-613 | list details: url and public visibility, owner, ranked iff ranked items, lastUpdated falling back to publishDate, trimmed title and description. A failed film walk propagates |
| LetterboxdAccounts.ListAt | src/lib/letterboxd.ts:550-558 | a list without an href throws the missing-URL error; otherwise the list is scraped from the origin plus href |
| LetterboxdAccounts.WalkLists | src/lib/letterboxd.ts:529-565 | the recursive lists walk: a failed page fetch or a failed list ends it with that error; an empty page ends it with the count; each link's list is handed over in order, then the next page follows |
| LetterboxdAccounts.ScrapeListsForUser | src/lib/letterboxd.ts:529-565 | the loop returns the count and hands over the lists exactly as the recursive page walk does |
| LetterboxdAccounts.HandOverPage | src/lib/letterboxd.ts:544-562 | one page's lists are handed over in order, stopping at the first failure, as the walk does |
| LetterboxdAccounts.WalkCountsProcessed | src/lib/letterboxd.ts:540-564 | the returned count is the starting count plus the number of lists handed over |
| LetterboxdAccounts.WalkHandsOverAllLinks | src/lib/letterboxd.ts:546-564 | a walk that succeeds hands over every list link on every page up to the first empty page |
| UserWatches.IdentityError | src/lib/syncUserWatches.ts:153-159 | a record without a numeric movie id or a string name throws a plain Error, the id check first |
| UserWatches.SaveErrorMessage | src/lib/syncUserWatches.ts:184-188 | a failed record is rethrown with a message that starts "Error while syncing watches for Letterboxd user " |
| UserWatches.BreakOnPage | src/lib/syncUserWatches.ts:58-59 | duplicates end a page iff the mode is active and no start page (absent or zero) or this very page is named |
| UserWatches.Stamp | src/lib/syncUserWatches.ts:178 | a saved record carries the syncing user's id and is otherwise unchanged |
| UserWatches.FilmEntryStore.Save | src/lib/syncUserWatches.ts:180-181 | a save appends the record unless the store refuses it |
| UserWatches.FilmEntryStore.FindDuplicate | src/lib/syncUserWatches.ts:162-176 | the duplicate query either fails with the store's error or answers whether a stored entry matches the record's movie id, user, name and, where defined, slug, stars and heart |
| UserWatches.SaveFrom | src/lib/syncUserWatches.ts:139-190 | the save loop from record i on, as a value: an unidentified record throws; in duplicate mode a failed lookup throws with context and a stored duplicate ends the page; a refused save throws with context; otherwise the record is stamped, appended to the table and the loop goes on |
| UserWatches.SavePage | src/lib/syncUserWatches.ts:131-192 | the saving half of a page as a value: a scrape error propagates with nothing saved, otherwise SaveFrom from the first record |
| UserWatches.SaveFromInFull | src/lib/syncUserWatches.ts:139-190 | without duplicate mode, a save loop that ends without error has saved every remaining record, stamped, in order, and appended exactly those to the table |
| UserWatches.SavePageInFull | src/lib/syncUserWatches.ts:139-190 | without duplicate mode, a page saved without error saved all its records, stamped, in page order |
| UserWatches.SaveTurn | src/lib/syncUserWatches.ts:140-189 | one record's turn: the rest of the page is what its outcome decides in SaveFrom. A stored record is appended, a duplicate or a throw leaves the table, and a throw is explained by FailsWith |
| UserWatches.SaveLoop | src/lib/syncUserWatches.ts:139-190 | the loop is proved equal to SaveFrom from the first record. What it saves is the stamped prefix of the records, appended to the table. It stops early only at a stored duplicate in duplicate mode, and each saved record was no duplicate of what preceded it. An error is an identity, lookup or save failure after the earlier records were saved |
| UserWatches.SavePageWatches | src/lib/syncUserWatches.ts:137-192 | the outcome and the new table are SavePage's. Records are saved stamped, in page order. Duplicate mode stops the page at the first already-stored record. A bad id or name, a failed duplicate lookup or a failed save throws with the earlier records kept |
| UserWatches.SyncWatchesForPage | src/lib/syncUserWatches.ts:121-193 | the outcome and the new table are SavePage of ScrapedPage. A fetch error propagates with nothing saved. The k-th record saved is the k-th poster's watch, numbered and stamped. An error is the scrape's first failure with nothing saved, or a record's identity, lookup or save failure after the earlier records were saved. The page's records are appended with consecutive sort ids from syncCount + 1. They carry the user id and the collection date and stay within maxSync |
| UserWatches.CheckUserId | src/lib/syncUserWatches.ts:195-206 | an unknown user throws "User does not exist" with nothing synced |
| UserWatches.Rethrown | src/lib/syncUserWatches.ts:87-97 | an Error propagates unchanged; a string or other throw is wrapped with the records synced so far |
| UserWatches.NumberedAppend | src/lib/syncUserWatches.ts:63-79 | a page numbered on from the running total keeps the sort ids consecutive from 1 after the concatenation |
| UserWatches.WatchesWalk | src/lib/syncUserWatches.ts:56-97 | the page loop as a value: pages in order from `page` to the last, each scraped numbered from the running total and saved. A page's error is rethrown with what was synced before it. An empty page, a truthy maxSync reached or passing the last page ends the walk |
| UserWatches.UserWatchesRun | src/lib/syncUserWatches.ts:41-109 | an unknown user fails before any page is read; otherwise WatchesWalk from page 1, dated now, with the user's name |
| UserWatches.WalkTurn | src/lib/syncUserWatches.ts:63-86 | one page of the walk: the page's outcome decides the rest of WatchesWalk. Its records are appended, and the numbering and the cap carry over to the running total |
| UserWatches.WalkPages | src/lib/syncUserWatches.ts:56-97 | the outcome and the table equal WatchesWalk from page 1. Sort ids run 1, 2, … and the total stays within a truthy maxSync. An error is an Error value with the earlier pages kept |
| UserWatches.SyncUserWatches | src/lib/syncUserWatches.ts:41-109 | the outcome and the table equal UserWatchesRun. Pages are walked in order. Sort ids run 1, 2, … The total stays within maxSync. The user's last-update stamp is written only on success, and an error leaves the user table untouched |
| UserWatches.SyncRecentUserWatches | src/lib/syncUserWatches.ts:22-24 | the outcome and the table equal UserWatchesRun without duplicate mode and with a limit of maxSync, or 30 when it is absent. Without a maxSync the recent sync stops at 30 watches |
| UserWatches.SyncAllUserWatches | src/lib/syncUserWatches.ts:26-28 | the outcome and the table equal UserWatchesRun without duplicate mode or limit. The full sync saves every watch it returns, numbered from 1 |
| UserWatches.EntryPointsNeverBreakOnDuplicates | src/lib/syncUserWatches.ts:22-28 | both public entry points leave duplicate-breaking off |
| UserWatches.StartPageOnlyChecked | src/lib/syncUserWatches.ts:58-59 | with a start page set, duplicates are checked on that page only |
| SyncRepo.MinutesAgo | src/db/repositories/SyncRepo.ts:8-10 | the moment lies in the past iff the minute count is not negative |
| SyncRepo.SyncRepository.Save | src/db/repositories/SyncRepo.ts:15 | a save gives a new sync a fresh id and writes the record under its id, leaving the others alone |
| SyncRepo.SyncRepository.QueueSync | src/db/repositories/SyncRepo.ts:13-31 | saves the new sync first, then returns the other Pending or In Progress syncs with the same trigger and username started in the last ten minutes, never the new one |
| SyncRepo.OverlapWindow | src/db/repositories/SyncRepo.ts:16-28 | overlap means started less than 600000 ms ago, and the sync type plays no part |
| SyncRepo.SkipSyncTouchesOnly | src/db/repositories/SyncRepo.ts:33-38 | a skip sets Skipped, finished and numSynced 0, and changes nothing else |
| SyncRepo.SyncRepository.SkipSync | src/db/repositories/SyncRepo.ts:33-38 | the skipped record is saved under its id |
| SyncRepo.StartSyncRestamps | src/db/repositories/SyncRepo.ts:40-44 | starting twice keeps only the later start time |
| SyncRepo.SyncRepository.StartSync | src/db/repositories/SyncRepo.ts:40-44 | the started record is saved under its id |
| SyncRepo.EndedRow | src/db/repositories/SyncRepo.ts:46-71 | `endSync` on an entity: a given type, a truthy count and a truthy message are written, the status is Failed iff the message is truthy, the secondary id is always overwritten and the finish time set |
| SyncRepo.EndSyncRules | src/db/repositories/SyncRepo.ts:46-71 | Failed iff the error message is truthy, else Complete. finished is always set and secondaryId always overwritten. A zero count and a missing type leave the old values. A passed status is ignored |
| SyncRepo.SyncRepository.EndSync | src/db/repositories/SyncRepo.ts:46-71 | the ended record is saved under its id and no other record changes |
| SyncRepo.ManagedRowClosed | src/db/repositories/SyncRepo.ts:73-85 | a managed action always leaves its sync terminal and finished. It is Failed iff the error's message is non-empty. On success the secondary id and a non-zero count are recorded |
| SyncRepo.SyncRepository.ManageAction | src/db/repositories/SyncRepo.ts:73-85 | the action's result is passed through unchanged and its one sync record is closed as above |
| SyncRepo.SyncRepository.Begin | src/db/repositories/SyncRepo.ts:74-75 | a managed action first saves a new In Progress sync of its trigger and type |
| SyncRepo.SyncRepository.Finish | src/db/repositories/SyncRepo.ts:77-84 | the managed action then ends it once, with the count and secondary id or with the error message |
| SyncRepo.CompletedJobRow | src/db/repositories/SyncRepo.ts:46-71 | a queued system job ended with a count is Complete with its type and secondary id; a zero count stays unset |
| SyncRepo.SyncRepository.QueueTyped | src/lib/managedSyncs/syncMovies.ts:55-57 | a job queues a system sync, sets its type and saves it under a fresh id |
| SyncRepo.SyncRepository.ClearUnfinished | src/db/repositories/SyncRepo.ts:87-92 | deletes exactly the In Progress and Pending syncs of the trigger and keeps every other record as it was |
| SyncMovies.AsBetterlox | src/lib/managedSyncs/syncMovies.ts:29-34 | a BetterloxApiError passes unchanged, anything else is wrapped in one |
| SyncMovies.ProcessedPage | src/lib/managedSyncs/syncMovies.ts:20-38 | a page processes iff every save succeeds, and then returns the input records; a failure is a BetterloxApiError |
| SyncMovies.PopularMovieStore.ProcessPopularPage | src/lib/managedSyncs/syncMovies.ts:20-38 | records are saved in input order; a failure leaves exactly the records before it saved |
| SyncMovies.PopularBatchWithinCap | src/lib/managedSyncs/syncMovies.ts:120 | a popular batch holds at most the per-year or per-genre cap |
| SyncMovies.WalkYears | src/lib/managedSyncs/syncMovies.ts:113-137 | the year loop returns what the year-by-year walk gives: batches appended in year order, 404 years skipped, the first other error wrapped and returned |
| SyncMovies.SyncPopularMoviesByDateRange | src/lib/managedSyncs/syncMovies.ts:108-140 | visits startYear up to endYear − 1 in order and returns the number of movies gathered, or the first unskipped error |
| SyncMovies.YearsErrorSticks | src/lib/managedSyncs/syncMovies.ts:130-135 | an error that is not skipped ends the year walk: later years change nothing |
| SyncMovies.YearsWithinCap | src/lib/managedSyncs/syncMovies.ts:114-121 | when no year yields more than the cap, the years gather at most (years) × cap movies |
| SyncMovies.PopularBatch | src/lib/managedSyncs/syncMovies.ts:120 | one year's or genre's walk is the capped popular-page walk with the popular-page hook |
| SyncMovies.PopularYearBatches | src/lib/managedSyncs/syncMovies.ts:118-120 | each year's batch walks that year's popular pages capped at moviesPerYear |
| SyncMovies.YearsWalk | src/lib/managedSyncs/syncMovies.ts:113-139 | the years from startYear up to, not including, endYear, in order: an axios 404 skips the year, any other failure ends the walk |
| SyncMovies.PopularGenreBatches | src/lib/managedSyncs/syncMovies.ts:166-168 | each genre's batch walks that genre's popular pages capped at moviesPerGenre |
| SyncMovies.GenresWalk | src/lib/managedSyncs/syncMovies.ts:161-182 | the genre paths in order, their movies concatenated; the first failure ends the walk |
| SyncMovies.PopularYearBatchesWithinCap | src/lib/managedSyncs/syncMovies.ts:120 | a year's scrape yields at most moviesPerYear movies |
| SyncMovies.PopularYearsWithinCap | src/lib/managedSyncs/syncMovies.ts:114-121 | the by-date-range walk gathers at most (endYear − startYear) × moviesPerYear movies |
| SyncMovies.MissingYearsSkipped | src/lib/managedSyncs/syncMovies.ts:122-128 | years that answer 404 are skipped without error |
| SyncMovies.RangeId | src/lib/managedSyncs/syncMovies.ts:97 | the by-year correlation id is the start year, a dash and the end year |
| SyncMovies.PerYearRange | src/lib/managedSyncs/syncMovies.ts:48-85 | a truthy endYear is used as given. Otherwise the range ends at min(current year, start + batch size), starting at the default or at a resumed year before the current one |
| SyncMovies.RangeIdReadsBackEnd | src/lib/managedSyncs/syncMovies.ts:76-97 | for a four-digit start year, substring(5) of "start-end" reads back the end year |
| SyncMovies.NextRunResumes | src/lib/managedSyncs/syncMovies.ts:76-97 | the next run starts where the last complete range ended, while that is before the current year |
| SyncMovies.CaughtUpStartsOver | src/lib/managedSyncs/syncMovies.ts:76-82 | once the last range reached the current year, the next run starts from the default start year again |
| SyncMovies.SyncPopularMoviesPerYear | src/lib/managedSyncs/syncMovies.ts:48-106 | the typed sync is queued first. On success it ends Complete with the count and "start-end" and returns the count and range; on error it stays queued |
| SyncMovies.GenrePath | src/lib/managedSyncs/syncMovies.ts:146 | a genre's path segment is the lower-cased name with every space a dash |
| SyncMovies.GenrePathsShape | src/lib/managedSyncs/syncMovies.ts:146 | no genre path holds a space or a capital letter |
| SyncMovies.GenrePaths | src/lib/managedSyncs/syncMovies.ts:142-147 | never more paths than genres, and one path per genre when "TV Movie" is absent |
| SyncMovies.GenrePathsCover | src/lib/managedSyncs/syncMovies.ts:142-147 | the paths are exactly the transformed genres other than "TV Movie" |
| SyncMovies.GenreError | src/lib/managedSyncs/syncMovies.ts:170-181 | axios errors pass unwrapped; others become a BetterloxApiError naming the genre |
| SyncMovies.GenresWithinCap | src/lib/managedSyncs/syncMovies.ts:163-169 | when no genre yields more than the cap, i genres yield at most i × cap movies |
| SyncMovies.PopularGenreBatchesWithinCap | src/lib/managedSyncs/syncMovies.ts:168 | a genre's scrape yields at most moviesPerGenre movies |
| SyncMovies.PopularGenresWithinCap | src/lib/managedSyncs/syncMovies.ts:163-169 | the genre job gathers at most (genre paths) × moviesPerGenre movies |
| SyncMovies.GenresErrorSticks | src/lib/managedSyncs/syncMovies.ts:170-181 | a genre error ends the genre walk: later genres change nothing |
| SyncMovies.WalkGenres | src/lib/managedSyncs/syncMovies.ts:161-182 | the genre loop returns what the genre-by-genre walk gives |
| SyncMovies.Names | src/lib/managedSyncs/syncMovies.ts:190 | one name per movie, in order |
| SyncMovies.SyncGenrePaths | src/lib/managedSyncs/syncMovies.ts:157-193 | over given genre paths: the typed sync is queued; on success it ends Complete with the total, returned as cachedCount with the names; on error it stays queued |
| SyncMovies.SyncPopularMoviesPerGenre | src/lib/managedSyncs/syncMovies.ts:153-193 | on success the sync ends Complete with the total, and the same total is returned as cachedCount with the names; on error it stays queued |
| SyncMoviesCollections.CheckMovieForCollection | src/lib/managedSyncs/syncMoviesCollections.ts:7-37 | a collection comes back iff the input exists with id > 0 and a non-empty name; poster and backdrop are kept as given |
| SyncMoviesCollections.UpdatedMovie | src/lib/managedSyncs/syncMoviesCollections.ts:44-53 | the movie's fields once its call returned or threw |
| SyncMoviesCollections.UpdatedMovieRules | src/lib/managedSyncs/syncMoviesCollections.ts:44-53 | the movie's collections become [saved] only when one was found, syncedCollections is set, and nothing else changes |
| SyncMoviesCollections.CollectionsAfter | src/lib/managedSyncs/syncMoviesCollections.ts:44-50 | the collections table after each movie's call has saved its collection, in order |
| SyncMoviesCollections.CollectionsAfterContents | src/lib/managedSyncs/syncMoviesCollections.ts:44-50 | the calls only add to the collections table: old ids stay, every saved collection is present under its id, every entry is an old one or a saved one, and entries keyed by their own id stay so |
| SyncMoviesCollections.SyncOneMovieCollections | src/lib/managedSyncs/syncMoviesCollections.ts:39-59 | the movie entity is updated, the collection and the movie saved, and syncedCollections returned empty; a failure leaves the movie row unsaved |
| SyncMoviesCollections.ToSync | src/lib/managedSyncs/syncMoviesCollections.ts:75 | min(missing, limit) for a truthy limit; all missing for a falsy one |
| SyncMoviesCollections.CollectionsMessage | src/lib/managedSyncs/syncMoviesCollections.ts:85 | the abort message is never empty |
| SyncMoviesCollections.FirstFailing | src/lib/managedSyncs/syncMoviesCollections.ts:78-90 | finds the first movie among the first n whose sync fails, or none |
| SyncMoviesCollections.FirstFailingAt | src/lib/managedSyncs/syncMoviesCollections.ts:77-89 | a movie that fails after none before it failed is the first failure among any longer prefix |
| SyncMoviesCollections.LoopOutcome | src/lib/managedSyncs/syncMoviesCollections.ts:77-89 | the loop over the first n movies: those movies in order, or the first failure as an Error naming its movie |
| SyncMoviesCollections.CollectionsOutcome | src/lib/managedSyncs/syncMoviesCollections.ts:67-93 | on success, the first ToSync movies in order with that count and no correlation id |
| SyncMoviesCollections.CollectionsFailureNamed | src/lib/managedSyncs/syncMoviesCollections.ts:83-88 | a failed action carries the message naming a handled movie whose call failed, with that call's error |
| SyncMoviesCollections.Handled | src/lib/managedSyncs/syncMoviesCollections.ts:77-89 | the movies the loop saved before it ended: all n, or those before the first failure |
| SyncMoviesCollections.Attempted | src/lib/managedSyncs/syncMoviesCollections.ts:77-89 | the movies whose calls ran: the handled ones and, on failure, the failing one; between Handled and n |
| SyncMoviesCollections.MarkedSynced | src/lib/managedSyncs/syncMoviesCollections.ts:52-53 | a movie is marked collections-synced on the entity and in the movies table |
| SyncMoviesCollections.TablesAfter | src/lib/managedSyncs/syncMoviesCollections.ts:44-53 | the collections table holds what the attempted calls saved, and no movie row changed outside the attempted movies |
| SyncMoviesCollections.FailureEndsLoop | src/lib/managedSyncs/syncMoviesCollections.ts:77-89 | the first failing movie ends the loop with its message, after exactly the movies before it and with its own call run |
| SyncMoviesCollections.CollectionsTurn | src/lib/managedSyncs/syncMoviesCollections.ts:79-89 | one movie's turn fails iff its sync fails, with that error. A success returns the movie and marks it. No movie is unmarked, and the tables move from the first i movies' state to the first i + 1's |
| SyncMoviesCollections.CollectionsLoop | src/lib/managedSyncs/syncMoviesCollections.ts:77-89 | the loop gives LoopOutcome. Every handled movie is marked synced. The collections table holds the attempted calls' saves, and movie rows outside the attempted movies are unchanged |
| SyncMoviesCollections.CollectionsAction | src/lib/managedSyncs/syncMoviesCollections.ts:67-93 | no movies is an empty success; otherwise the loop over the first ToSync movies gives CollectionsOutcome, with the loop's marks and tables |
| SyncMoviesCollections.SyncAllMoviesCollections | src/lib/managedSyncs/syncMoviesCollections.ts:61-95 | the job runs under manageAction with the Movies:Collections type, records its outcome in the sync table, and leaves the catalog as CollectionsAction states |
| SyncMoviesCollections.CollectionsSyncRecorded | src/lib/managedSyncs/syncMoviesCollections.ts:84-92 | a failing movie records the sync Failed with the message; success records Complete with the count when it is non-zero |
| SyncMoviesCredits.MovieCredits | src/lib/managedSyncs/syncMoviesCredits.ts:9-28 | one movie's credits call: the TMDB error, or the cast and crew roles each writer reported |
| SyncMoviesCredits.Present | src/lib/managedSyncs/syncMoviesCredits.ts:16-22 | exactly the truthy roles are kept |
| SyncMoviesCredits.KeepPresent | src/lib/managedSyncs/syncMoviesCredits.ts:16-22 | the forEach keeps the truthy roles as the filter does |
| SyncMoviesCredits.CreditFailuresSwallowed | src/lib/managedSyncs/syncMoviesCredits.ts:9-28 | failures of addCast or addCrew leave that list empty without failing; only the TMDB credits call can fail |
| SyncMoviesCredits.SyncOneMovieCredits | src/lib/managedSyncs/syncMoviesCredits.ts:9-28 | the method computes the movie's credits as above |
| SyncMoviesCredits.CreditsStep | src/lib/managedSyncs/syncMoviesCredits.ts:50-61 | one movie's turn: its credits, then the save of the movie marked synced, whose refusal propagates |
| SyncMoviesCredits.CreditsWalk | src/lib/managedSyncs/syncMoviesCredits.ts:48-62 | the loop over the first i movies: the cast and crew roles in movie order, or the first failure |
| SyncMoviesCredits.CreditsWalkOk | src/lib/managedSyncs/syncMoviesCredits.ts:48-62 | the walk succeeds iff every movie's credits and save succeed |
| SyncMoviesCredits.CreditsErrorSticks | src/lib/managedSyncs/syncMoviesCredits.ts:55-61 | after the first failure the walk's result no longer changes |
| SyncMoviesCredits.MarkedSynced | src/lib/managedSyncs/syncMoviesCredits.ts:53-61 | a movie is marked credits-synced on the entity and in the movies table |
| SyncMoviesCredits.CreditsEffect | src/lib/managedSyncs/syncMoviesCredits.ts:48-62 | after the loop every movie is marked when the walk succeeded, the collections table is untouched, and no movie row outside the loop's movies changed |
| SyncMoviesCredits.CreditsTurn | src/lib/managedSyncs/syncMoviesCredits.ts:49-61 | the turn gives CreditsStep; a success marks the movie and saves it. No movie is unmarked, the collections table is untouched, and rows change only under the first i + 1 movies |
| SyncMoviesCredits.CreditsLoop | src/lib/managedSyncs/syncMoviesCredits.ts:48-62 | the loop gives the walk's result and leaves the catalog as CreditsEffect states |
| SyncMoviesCredits.Rows | src/lib/managedSyncs/syncMoviesCredits.ts:72 | the message describes each movie's current fields |
| SyncMoviesCredits.CreditsRun | src/lib/managedSyncs/syncMoviesCredits.ts:41-77 | after the sync is queued: no movies returns 0 with the sync untouched. A failed loop propagates with the sync untouched. Success with roles ends it Complete with cast plus crew count; with none it throws the message and leaves the sync untouched. The catalog is left as CreditsEffect states |
| SyncMoviesCredits.SyncAllMoviesCredits | src/lib/managedSyncs/syncMoviesCredits.ts:34-78 | the default limit is 5000. No movies returns 0 with the sync unended. Otherwise the sync ends Complete with cast plus crew count when a role synced; with none it throws and stays unended. The catalog is left as CreditsEffect states for the queried movies |
| SyncPeople.SyncPeople | src/lib/managedSyncs/syncPeople.ts:24-58 | no ids returns 0 without saving. Otherwise the sync is saved and ended: with the count when people synced, or it throws after ending. A throw from the people repository leaves the sync saved and unended, and propagates. The ids are returned unchanged |
| SyncPeople.ZeroSyncedRecordedComplete | src/lib/managedSyncs/syncPeople.ts:46-49 | as written, the zero-synced end records the sync Complete with its old count and no message |
| SyncPeople.ZeroSyncedRecordedFailed | src/lib/managedSyncs/syncPeople.ts:43-49 | passing the message records the sync Failed, with the message and finished time |
| SyncPeople.RolePeopleRun | src/lib/managedSyncs/syncPeople.ts:6-58 | one role job as a value: a success returns the ids unchanged, with the people-sync count when there were ids; it fails exactly when there were ids and the people sync threw or returned nobody; the stored record keeps the sync's id |
| SyncPeople.RolePeopleRecorded | src/lib/managedSyncs/syncPeople.ts:24-58 | the role job's record keeps the sync's id and system trigger; it stays Pending with no ids or when the people sync throws, and is Complete otherwise, with the synced count and finished time when people synced and with no count when none did |
| SyncPeople.SyncRolePeople | src/lib/managedSyncs/syncPeople.ts:6-22 | a system sync is queued and typed in memory; the stored record gains the type only when there are ids. A throw from the people repository leaves the typed row saved and unended, and propagates. Result and stored record equal `RolePeopleRun` |
| SyncPeople.SyncCastPeople | src/lib/managedSyncs/syncPeople.ts:6-13 | the cast job uses the Movies:Cast type; its result and the sync record it leaves equal `RolePeopleRun` for that type, so `RolePeopleRecorded` applies to it |
| SyncPeople.SyncCrewPeople | src/lib/managedSyncs/syncPeople.ts:15-22 | the crew job uses the Movies:Crew type; its result and the sync record it leaves equal `RolePeopleRun` for that type, so `RolePeopleRecorded` applies to it |
| SyncPopularMoviesMovies.SyncPopularMoviesMovies | src/lib/managedSyncs/syncPopularMoviesMovies.ts:9-42 | the default limit is 5000. Nothing missing returns 0 and [] unended. A positive count ends Complete and returns the slugs in order. Zero synced throws |
| SyncEntriesMovies.SyncEntriesMovies | src/lib/managedSyncs/syncEntriesMovies.ts:8-39 | the default limit is 1000. Nothing missing returns 0 and [] unended. A positive count ends Complete and returns the slugs in order. Zero synced throws |
| MovieStore.MovieCatalog.SaveMovie | src/lib/managedSyncs/syncMoviesCollections.ts:53 | a movie save writes the entity's fields under its id unless refused |
| MovieStore.MovieCatalog.SaveCollection | src/lib/managedSyncs/syncMoviesCollections.ts:46-47 | a collection save writes it under its id unless refused |
| MovieStore.Slugs | src/lib/managedSyncs/syncEntriesMovies.ts:36 | one slug per movie, in input order |
| UserRepo.RemoveCredentials | src/db/repositories/UserRepo.ts:36-39 | every field but password and salt is kept |
| UserRepo.RemoveCredentialsAndToken | src/db/repositories/UserRepo.ts:41-45 | the remember-me token goes too |
| UserRepo.ConvertUserToPublicSafe | src/db/repositories/UserRepo.ts:145-150 | the public user is the stripped user plus isAdmin |
| UserRepo.CredentialsNeverExposed | src/common/types/db.ts:5-8 | the returned users do not depend on password or salt, nor the public one on the token |
| UserRepo.FirstMatch | src/db/repositories/UserRepo.ts:51-53 | findOne returns the first matching row, or none |
| UserRepo.LoginOutcome | src/db/repositories/UserRepo.ts:49-74 | `login` on a store of rows: the first row with the lower-cased e-mail, the hash check, and a truthy rememberMe writing the token to that row; a failure leaves the rows as they were, a success keeps their number |
| UserRepo.LoginDecision | src/db/repositories/UserRepo.ts:49-74 | the email is lower-cased. An unknown user throws LoginError and a wrong hash "Invalid password"; otherwise that user is returned |
| UserRepo.LoginTouchesOnlyToken | src/db/repositories/UserRepo.ts:67-71 | only a successful remember-me login changes the table, and only that user's token |
| UserRepo.LoginIgnoresEmailCase | src/db/repositories/UserRepo.ts:50 | login gives the same outcome for an email and its lower case |
| UserRepo.UserRepository.Login | src/db/repositories/UserRepo.ts:49-74 | the method does what the login rules above say |
| UserRepo.TokenLookup | src/db/repositories/UserRepo.ts:81-96 | an unknown token throws "User not found"; a found user carries the token |
| UserRepo.RememberedLoginFoundByToken | src/db/repositories/UserRepo.ts:67-96 | after a remember-me login with a new token, the token finds that same user |
| UserRepo.RanksBeforeIsStrictWeak | src/db/repositories/UserRepo.ts:108-111 | the two-key order is a strict weak order |
| UserRepo.FirstRankedIsFirstBest | src/db/repositories/UserRepo.ts:107-113 | take: 1 yields a row no other ranks before, and the first such row |
| UserRepo.FirstUnder | src/db/repositories/UserRepo.ts:106-118 | null iff there are no users, else a user of the table |
| UserRepo.UserRepository.GetUserWithOldestEntries | src/db/repositories/UserRepo.ts:106-118 | null iff no users, otherwise the public-safe form of a table user |
| UserRepo.AsWrittenPicksMostRecent | src/db/repositories/UserRepo.ts:109 | as written, the chosen user has the most recent update attempt |
| UserRepo.NewerAttemptChosenExample | src/db/repositories/UserRepo.ts:108-111 | of attempts at 1 and 2, as written picks 2; oldest-first picks 1 |
| UserRepo.JustAttemptedChosenAgain | src/db/repositories/UserRepo.ts:102-111 | as written, the user whose attempt was just stamped is chosen again next |
| UserRepo.OldestFirstPicksLeastRecent | src/db/repositories/UserRepo.ts:106-118 | ascending order picks a never-attempted user, or else the least recent attempt |
| UserRepo.UserRepository.SetLastEntriesUpdated | src/db/repositories/UserRepo.ts:98-100 | only that user's lastEntriesUpdate changes |
| UserRepo.UserRepository.SetLastEntriesUpdateAttempt | src/db/repositories/UserRepo.ts:102-104 | only that user's lastEntriesUpdateAttempt changes |
| LogLevel.IndexOf | src/lib/logger.ts:13 | indexOf is −1 iff the level is absent, else its first position |
| LogLevel.WrittenIffAsSevere | src/lib/logger.ts:13-18 | a level is written iff the configured level is listed and the level comes no later in the order |
| LogLevel.DefaultLevelWrites | src/common/types/base.ts:9 | under the default "info" and the concrete order error, warning, info, verbose, debug (BASE_LEVEL_ORDER), error, warning and info are written; other orders are not covered |
| LogLevel.GetLoxLogLevel | src/lib/getLoxLogLevel.ts:4-16 | unset, empty or unknown gives "info"; a listed level is returned unchanged |
| Logger.ConsoleFor | src/lib/logger.ts:20-27 | error goes to console.error, warning to console.warn, everything else to console.log |
| Logger.EmittedIffAsSevere | src/lib/logger.ts:17-29 | one line is emitted iff the level is written; an unlisted configured level emits nothing |
| Logger.LoxDBLogger.Log | src/lib/logger.ts:17-29 | appends the emitted line, if any, to the output |
| Logger.LoxDBLogger.Error | src/lib/logger.ts:31-33 | delegates with level "error" |
| Logger.LoxDBLogger.Warning | src/lib/logger.ts:35-37 | delegates with level "warning" |
| Logger.LoxDBLogger.Info | src/lib/logger.ts:39-41 | delegates with level "info" |
| Logger.LoxDBLogger.Verbose | src/lib/logger.ts:43-45 | delegates with level "verbose" |
| Logger.LoxDBLogger.Debug | src/lib/logger.ts:47-49 | delegates with level "debug" |
| Logger.LoxDBLogger.constructor | src/lib/logger.ts:12-15 | writeLevels is the prefix of the order up to the level, "info" by default, and nothing is output yet |
| Logger.ModuleLogger | src/lib/logger.ts:52-53 | the module logger writes the levels up to the environment's level |

## Left out

- HTTP, HTML parsing, the clock, `randomUUID`, the TMDB client, `hash`, `getRememberMeToken`, `isAdmin` and `getDataImageTagFromUrl` are parameters. Their behaviour is whatever the caller supplies.
- Concurrency: `Promise.all` and the fire-and-forget `SyncRepo.save` calls are modelled as sequential steps. `clearUnfinished`'s two parallel deletes are one step.
- The logger's console prefix, its ISO timestamp and upper-cased level are not modelled. A log line records the target console method, the level and the messages.
- `averageRating` is copied through and never computed on. Ratings are integer half-stars.
- The `wait` delay is recorded as the requested 2^tries milliseconds. No time passes.
- `JSON.stringify` in the jobs' error messages is a `describe` parameter.
- `Number(...)` is modelled for decimal integers only. `toLowerCase` is ASCII-only.
- src/common/constants.ts is not part of this model. `GENRES` and `ORDERED_LOG_LEVELS` are parameters.
- The entities Movie, FilmEntry, User and Collection are not part of this model. Their fields are taken from how the core uses them.
- The movie, popular-movie, film-entry, cast and crew repositories' queries are not part of this model, except the watch sync's duplicate lookup (`FilmEntryStore.FindDuplicate`, which may fail). Their results are parameters: missing collections, missing credits, missing movies, roles with missing people. So are `MoviesRepo.syncMovies` and `PeopleRepo.syncPeople`; the latter may throw.
- The lastRange lookup in `syncPopularMoviesPerYear` (the latest complete by-year sync's secondaryId) is a parameter. So is whether the database sorts NULLs first in `getUserWithOldestEntries`.
- Email uniqueness in the users table is not assumed. Login takes the first match.
- The popular-movie rows saved during the year and genre walks are described by `ProcessPopularPage`. The walks record only whether each save failed.
- `processList` in `scrapeListsForUser` is modelled as the sequence of lists handed over.
- SyncRepo.SyncRepository.ManageAction: writes to the sync table never fail. A throw from the success-path `endSync`, which the catch re-ends as failed and rethrows (src/db/repositories/SyncRepo.ts:77-84), is not modelled. Neither are failures of `save` and `endSync` elsewhere.
- LetterboxdMovies.ScrapeMoviesOverPages: requires page <= maxPages. From a page past maxPages the source walk would never meet its last-page stop.
- LetterboxdAccounts.GetUserDetails: an avatar `src` that is null and one that is undefined are both `None`.
- SyncPeople.SyncRolePeople: when the role query returns no ids, the stored record keeps the untyped row from `queueSync`. The in-memory type is never saved.
- UserWatches.SyncUserWatches: identity validation is per record. An invalid record throws with the earlier records already saved, as the code does.
- The last-page lookup (`findLastFilmsPage`) is a parameter of the watch sync.
- UserWatches.CheckUserId: the user lookup `UsersRepo.findOneBy` (src/lib/syncUserWatches.ts:197) never fails. A failure of that query, which would propagate from `syncUserWatches` before any page is read, is not modelled; an unknown user is the only error.
- UserWatches.SyncUserWatches: `UsersRepo.setLastEntriesUpdated` (src/lib/syncUserWatches.ts:100) never fails. A failure there, which would propagate after every page had been saved, is not modelled; a walk without error always stamps the user.
- `getTmdbIdFromShortUrl`, `findLastDiaryPage`, `findLastWatchesPage`, `parseMovieTitleFromImage` as a separate function, `clearRememberMeToken`, `getPublicSafeUser` and `getPublicSafeUsers` fall outside the modelled core.

## Findings

| source | as written | input that shows it | evidently intended | confidence | as-written member | corrected member |
|---|---|---|---|---|---|---|
| src/lib/letterboxd.ts:65 | the retry passes `tries++`, the old value, so every retry uses the same counter | six ECONNRESET failures in a row: six requests are made and the limit of 5 never triggers | retry with `tries + 1`, so at most five requests, with waits 1, 2, 4, 8, 16 ms, then "Exceeded max tries" | high; not executed | Fetcher.AsWrittenNeverExceeds | Fetcher.CorrectedBackoff |
| src/db/repositories/UserRepo.ts:108-111 | `getUserWithOldestEntries` orders both timestamps descending, so it picks the user attempted most recently | users with attempts at times 1 and 2: the user at 2 is picked, and a user just stamped is picked again | ascending order, picking the least recently attempted user | medium; not executed | UserRepo.AsWrittenPicksMostRecent | UserRepo.OldestFirstPicksLeastRecent |
| src/lib/managedSyncs/syncPeople.ts:46-49 | the zero-synced run passes `status: FAILED` and `numSynced: 0`, which `endSync` ignores, so the sync is recorded Complete | `peopleSync` returns no people for a non-empty id list | record the sync Failed by passing the error message | high; not executed | SyncPeople.ZeroSyncedRecordedComplete | SyncPeople.ZeroSyncedRecordedFailed |
