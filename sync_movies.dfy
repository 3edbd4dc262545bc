/** The popular-movie jobs of src/lib/managedSyncs/syncMovies.ts: saving a
    page of popular movies, the by-year walk with its resumable year
    range, and the by-genre walk.

    The poster-list pages of each year and genre, the film pages and the
    store's refusals are parameters bundled in a `PopularSource`; the
    current year and the clock are parameters too. */
module SyncMovies {
  import opened Wrappers
  import opened JsText
  import opened Seqs
  import opened Scraped
  import opened Failures
  import opened DbTypes
  import opened SyncRepo
  import opened LetterboxdMovies

  /** The failure (if any) the popular-movies table raises on a save. */
  type PopularSaveFaults = ScrapedMovie -> Option<Thrown>

  /** Where the walks read from: list pages per year and per genre path,
      film pages, and the popular-movies table's refusals. */
  datatype PopularSource = PopularSource(
    yearPages: int -> PosterPages,
    genrePages: string -> PosterPages,
    filmPage: FilmPages,
    saveFault: PopularSaveFaults)

  /** A catch block that lets a `BetterloxApiError` through and wraps
      anything else in one with the given message. */
  function AsBetterlox(t: Thrown, message: string): (e: Thrown)
    ensures IsBetterlox(e)
    ensures IsBetterlox(t) ==> e == t
    ensures !IsBetterlox(t) ==> e == Raised(BetterloxApiError(message, t))
  {
    if IsBetterlox(t) then t else Raised(BetterloxApiError(message, t))
  }

  /** Saving one popular movie: the saved record, or the wrapped error. */
  function PopularSave(m: ScrapedMovie, saveFault: PopularSaveFaults): Result<ScrapedMovie, Thrown> {
    match saveFault(m)
    case None => Ok(m)
    case Some(t) => Err(AsBetterlox(t, ""))
  }

  /** What `processPopularPage` returns for a page: every record saved, in
      order, or the first failure wrapped. */
  function ProcessedPage(movies: seq<ScrapedMovie>, saveFault: PopularSaveFaults): (r: Result<seq<ScrapedMovie>, Thrown>)
    ensures r.Ok? <==> forall k :: 0 <= k < |movies| ==> saveFault(movies[k]).None?
    ensures r.Ok? ==> r.value == movies
    ensures r.Err? ==> IsBetterlox(r.error)
  {
    var r := MapAll(movies, (m: ScrapedMovie) => PopularSave(m, saveFault));
    if r.Ok? then
      assert forall k :: 0 <= k < |movies| ==> PopularSave(movies[k], saveFault) == Ok(movies[k]);
      assert r.value == movies;
      r
    else r
  }

  /** The popular-movies table. */
  class PopularMovieStore {
    var rows: seq<ScrapedMovie>

    constructor(rows0: seq<ScrapedMovie>)
      ensures rows == rows0
    {
      rows := rows0;
    }

    /** `processPopularPage`: saves the records one after another; the
        first refusal ends the page, wrapped unless it is already a
        `BetterloxApiError`, and the records before it stay saved. */
    method ProcessPopularPage(movies: seq<ScrapedMovie>, saveFault: PopularSaveFaults)
      returns (r: Result<seq<ScrapedMovie>, Thrown>)
      modifies this
      ensures r == ProcessedPage(movies, saveFault)
      ensures r.Ok? ==> rows == old(rows) + movies
      ensures r.Err? ==> exists m :: 0 <= m < |movies| && rows == old(rows) + movies[..m] && saveFault(movies[m]).Some?
    {
      var processed: seq<ScrapedMovie> := [];
      var i := 0;
      while i < |movies|
        invariant 0 <= i <= |movies|
        invariant processed == movies[..i]
        invariant rows == old(rows) + processed
        invariant forall k :: 0 <= k < i ==> saveFault(movies[k]).None?
      {
        var fault := saveFault(movies[i]);
        if fault.Some? {
          MapAllFirstError(movies, (m: ScrapedMovie) => PopularSave(m, saveFault), i);
          return Err(AsBetterlox(fault.value, ""));
        }
        rows := rows + [movies[i]];
        processed := processed + [movies[i]];
        assert processed == movies[..i + 1];
        i := i + 1;
      }
      assert processed == movies;
      r := Ok(processed);
    }
  }

  /** The `processPage` hook the walks pass. */
  function PopularHook(saveFault: PopularSaveFaults): PageHook {
    (movies: seq<ScrapedMovie>) => ProcessedPage(movies, saveFault)
  }

  /** One year's or one genre's discovery walk, capped at `maxMovies`. */
  function PopularBatch(pages: PosterPages, src: PopularSource, maxMovies: int): Result<seq<ScrapedMovie>, Thrown> {
    ScrapeMoviesOverPages(pages, src.filmPage, Some(maxMovies), DEFAULT_MAX_PAGES, 1, [], Some(PopularHook(src.saveFault)))
  }

  /** A walk that saves its first page never returns more than its cap. */
  lemma PopularBatchWithinCap(pages: PosterPages, src: PopularSource, maxMovies: int)
    requires 0 <= maxMovies
    ensures PopularBatch(pages, src, maxMovies).Ok? ==> |PopularBatch(pages, src, maxMovies).value| <= maxMovies
  {
    var found := ScrapeMoviesByPage(pages(1), Some(maxMovies - 0), src.filmPage);
    if found.Ok? && ProcessedPage(found.value, src.saveFault).Ok? {
      var acc := [] + found.value;
      if !Stops(found.value, 1, DEFAULT_MAX_PAGES, Some(maxMovies), acc) {
        WalkWithinCap(pages, src.filmPage, maxMovies, DEFAULT_MAX_PAGES, 2, acc);
      }
    }
  }

  /** What each year's discovery walk gives, by year. */
  type YearBatches = int -> Result<seq<ScrapedMovie>, Thrown>

  /** The year batches of a source: each year's popular walk capped at
      `moviesPerYear`. */
  function PopularYearBatches(src: PopularSource, moviesPerYear: int): YearBatches {
    (year: int) => PopularBatch(src.yearPages(year), src, moviesPerYear)
  }

  /** The date-range walk over the years from `startYear` up to, not
      including, `year`: every year's movies in year order; an axios 404
      skips a year; any other failure ends the walk, wrapped unless it is
      already a `BetterloxApiError`. */
  function YearsWalk(batchOf: YearBatches, startYear: int, year: int): Result<seq<ScrapedMovie>, Thrown>
    decreases year - startYear
  {
    if year <= startYear then Ok([])
    else
      match YearsWalk(batchOf, startYear, year - 1)
      case Err(t) => Err(t)
      case Ok(done) =>
        match batchOf(year - 1)
        case Ok(batch) => Ok(done + batch)
        case Err(t) => if IsAxiosStatus(t, 404) then Ok(done) else Err(AsBetterlox(t, ""))
  }

  /** The loop of `syncPopularMoviesByDateRange`: one walk per year, in
      order. */
  method WalkYears(batchOf: YearBatches, startYear: int, endYear: int)
    returns (r: Result<seq<ScrapedMovie>, Thrown>)
    ensures r == YearsWalk(batchOf, startYear, endYear)
  {
    var results: seq<ScrapedMovie> := [];
    var year := startYear;
    while year < endYear
      invariant startYear <= year && (year <= endYear || year == startYear)
      invariant YearsWalk(batchOf, startYear, year) == Ok(results)
      decreases endYear - year
    {
      var outcome := batchOf(year);
      if outcome.Err? {
        if !IsAxiosStatus(outcome.error, 404) {
          YearsErrorSticks(batchOf, startYear, year + 1, endYear);
          return Err(AsBetterlox(outcome.error, ""));
        }
      } else {
        results := results + outcome.value;
      }
      year := year + 1;
    }
    r := Ok(results);
  }

  /** `syncPopularMoviesByDateRange`: how many movies the years
      `startYear` … `endYear - 1` yielded. */
  method SyncPopularMoviesByDateRange(src: PopularSource, startYear: int, endYear: int, moviesPerYear: int)
    returns (r: Result<nat, Thrown>)
    ensures var walk := YearsWalk(PopularYearBatches(src, moviesPerYear), startYear, endYear);
      && (walk.Ok? ==> r == Ok(|walk.value|))
      && (walk.Err? ==> r == Err(walk.error))
  {
    var walk := WalkYears(PopularYearBatches(src, moviesPerYear), startYear, endYear);
    if walk.Err? {
      return Err(walk.error);
    }
    r := Ok(|walk.value|);
  }

  /** A failed year ends the walk: later years change nothing. */
  lemma {:induction false} YearsErrorSticks(batchOf: YearBatches, startYear: int, year: int, endYear: int)
    requires startYear <= year <= endYear
    requires YearsWalk(batchOf, startYear, year).Err?
    ensures YearsWalk(batchOf, startYear, endYear) == YearsWalk(batchOf, startYear, year)
    decreases endYear - year
  {
    if endYear > year {
      YearsErrorSticks(batchOf, startYear, year, endYear - 1);
    }
  }

  /** When no year yields more than `cap` movies, the years from
      `startYear` to `year` yield at most `cap` each. */
  lemma {:induction false} YearsWithinCap(batchOf: YearBatches, cap: int, startYear: int, year: int)
    requires 0 <= cap && startYear <= year
    requires forall y :: batchOf(y).Ok? ==> |batchOf(y).value| <= cap
    ensures YearsWalk(batchOf, startYear, year).Ok? ==>
      |YearsWalk(batchOf, startYear, year).value| <= (year - startYear) * cap
    decreases year - startYear
  {
    if year > startYear {
      YearsWithinCap(batchOf, cap, startYear, year - 1);
      assert (year - startYear) * cap == (year - 1 - startYear) * cap + cap;
    }
  }

  /** Every year of a source yields at most `moviesPerYear` movies. */
  lemma PopularYearBatchesWithinCap(src: PopularSource, moviesPerYear: int)
    requires 0 <= moviesPerYear
    ensures forall y :: PopularYearBatches(src, moviesPerYear)(y).Ok? ==>
      |PopularYearBatches(src, moviesPerYear)(y).value| <= moviesPerYear
  {
    forall y
      ensures PopularYearBatches(src, moviesPerYear)(y).Ok? ==>
        |PopularYearBatches(src, moviesPerYear)(y).value| <= moviesPerYear
    {
      PopularBatchWithinCap(src.yearPages(y), src, moviesPerYear);
    }
  }

  /** The by-date-range walk gathers at most `moviesPerYear` movies per year. */
  lemma PopularYearsWithinCap(src: PopularSource, moviesPerYear: int, startYear: int, endYear: int)
    requires 0 <= moviesPerYear && startYear <= endYear
    ensures var walk := YearsWalk(PopularYearBatches(src, moviesPerYear), startYear, endYear);
      walk.Ok? ==> |walk.value| <= (endYear - startYear) * moviesPerYear
  {
    PopularYearBatchesWithinCap(src, moviesPerYear);
    YearsWithinCap(PopularYearBatches(src, moviesPerYear), moviesPerYear, startYear, endYear);
  }

  /** Years whose pages all answer 404 contribute nothing and fail nothing. */
  lemma {:induction false} MissingYearsSkipped(batchOf: YearBatches, startYear: int, year: int)
    requires forall y :: startYear <= y < year ==> batchOf(y).Err? && IsAxiosStatus(batchOf(y).error, 404)
    ensures YearsWalk(batchOf, startYear, year) == Ok([])
    decreases year - startYear
  {
    if year > startYear {
      MissingYearsSkipped(batchOf, startYear, year - 1);
    }
  }

  /** The years a by-year sync covers: `startYear` included, `endYear`
      excluded. */
  datatype YearRange = YearRange(startYear: int, endYear: int)

  /** The correlation id a by-year sync records: `${startYear}-${endYear}`. */
  function RangeId(range: YearRange): string {
    IntString(range.startYear) + "-" + IntString(range.endYear)
  }

  /** The year range of `syncPopularMoviesPerYear`. A truthy `endYear` is
      used as given, from `startYear` (1900 by default). Otherwise the
      start moves to `Number(lastRange.substring(5))` when the latest
      complete by-year sync recorded a truthy range whose reading is a
      number below the current year, and the end is the current year or
      `yearBatchSize` (20 by default) years on, whichever is first. */
  function PerYearRange(startYear: Option<int>, endYear: Option<int>, yearBatchSize: Option<int>,
                        lastRange: Option<string>, currentYear: int): (r: YearRange)
    ensures endYear.Some? && endYear.value != 0 ==> r == YearRange(startYear.GetOr(1900), endYear.value)
    ensures !(endYear.Some? && endYear.value != 0) ==>
      && (r.startYear == startYear.GetOr(1900) || r.startYear < currentYear)
      && r.endYear <= currentYear
      && r.endYear <= r.startYear + yearBatchSize.GetOr(20)
      && (r.endYear == currentYear || r.endYear == r.startYear + yearBatchSize.GetOr(20))
  {
    var start0 := startYear.GetOr(1900);
    if endYear.Some? && endYear.value != 0 then YearRange(start0, endYear.value)
    else
      var resumed := if TruthyText(lastRange) then ToNumber(Substring(lastRange.value, 5)) else NaN;
      var start := if resumed.Num? && resumed.value < currentYear then resumed.value else start0;
      YearRange(start, Min(currentYear, start + yearBatchSize.GetOr(20)))
  }

  /** For a four-digit start year, reading the recorded id from its sixth
      character gives back the end year. */
  lemma RangeIdReadsBackEnd(range: YearRange)
    requires 1000 <= range.startYear <= 9999
    ensures ToNumber(Substring(RangeId(range), 5)) == Num(range.endYear)
  {
    NatStringFourDigits(range.startYear);
    var id := RangeId(range);
    assert id[5..] == IntString(range.endYear);
    IntStringRoundTrip(range.endYear);
  }

  /** A run without an end year resumes where the previous complete run
      ended, while that end is before the current year. */
  lemma NextRunResumes(prev: YearRange, startYear: Option<int>, yearBatchSize: Option<int>, currentYear: int)
    requires 1000 <= prev.startYear <= 9999
    requires prev.endYear < currentYear
    ensures PerYearRange(startYear, None, yearBatchSize, Some(RangeId(prev)), currentYear).startYear == prev.endYear
  {
    RangeIdReadsBackEnd(prev);
  }

  /** Once the previous run reached the current year, the next run starts
      over from the given (or default) start year. */
  lemma CaughtUpStartsOver(prev: YearRange, startYear: Option<int>, yearBatchSize: Option<int>, currentYear: int)
    requires 1000 <= prev.startYear <= 9999
    requires prev.endYear >= currentYear
    ensures PerYearRange(startYear, None, yearBatchSize, Some(RangeId(prev)), currentYear).startYear == startYear.GetOr(1900)
  {
    RangeIdReadsBackEnd(prev);
  }

  /** What `syncPopularMoviesPerYear` returns. */
  datatype PerYearResult = PerYearResult(cachedCount: nat, startYear: int, endYear: int)

  /** `syncPopularMoviesPerYear`. `lastRange` is the `secondaryId` of the
      latest complete by-year sync, if there is one. The sync is queued
      with its type; it is ended complete, with the range and the count,
      only when the walk succeeds. */
  method SyncPopularMoviesPerYear(repo: SyncRepository, src: PopularSource, moviesPerYear: int,
                                  startYear: Option<int>, endYear: Option<int>, yearBatchSize: Option<int>,
                                  lastRange: Option<string>, currentYear: int, now: int, endNow: int)
    returns (r: Result<PerYearResult, Thrown>, sync: Sync)
    requires repo.Valid()
    modifies repo
    ensures repo.Valid() && fresh(sync)
    ensures sync.id.Some? && sync.id.value !in old(repo.rows)
    ensures repo.rows == old(repo.rows)[sync.id.value := sync.Row()]
    ensures var range := PerYearRange(startYear, endYear, yearBatchSize, lastRange, currentYear);
      var walk := YearsWalk(PopularYearBatches(src, moviesPerYear), range.startYear, range.endYear);
      && (walk.Err? ==> r == Err(walk.error) && sync.Row() == QueuedRow(PopularMoviesYear, sync.id.value))
      && (walk.Ok? ==> (r == Ok(PerYearResult(|walk.value|, range.startYear, range.endYear))
            && sync.Row() == EndedRow(QueuedRow(PopularMoviesYear, sync.id.value),
                                      CompleteOptions(|walk.value|, Some(RangeId(range))), endNow)))
  {
    sync := repo.QueueTyped(PopularMoviesYear, now);
    var range := PerYearRange(startYear, endYear, yearBatchSize, lastRange, currentYear);
    var numSynced := SyncPopularMoviesByDateRange(src, range.startYear, range.endYear, moviesPerYear);
    if numSynced.Err? {
      return Err(numSynced.error), sync;
    }
    repo.EndSync(sync, CompleteOptions(numSynced.value, Some(RangeId(range))), endNow);
    r := Ok(PerYearResult(numSynced.value, range.startYear, range.endYear));
  }

  /** The genre excluded from syncing. */
  const EXCLUDED_GENRE := "TV Movie"

  /** A genre's path segment: lower-cased, every space a `-`. */
  function GenrePath(genre: string): string {
    ReplaceChar(ToLower(genre), ' ', '-')
  }

  /** No genre path holds a space or a capital letter. */
  lemma {:induction false} GenrePathsShape(genres: seq<string>)
    ensures forall p, k :: p in GenrePaths(genres) && 0 <= k < |p| ==> p[k] != ' ' && !('A' <= p[k] <= 'Z')
  {
    if genres != [] {
      GenrePathsShape(genres[1..]);
      var p := GenrePath(genres[0]);
      var lower := ToLower(genres[0]);
      assert forall k :: 0 <= k < |p| ==> p[k] == (if lower[k] == ' ' then '-' else lower[k]);
    }
  }

  /** `genrePaths`: the path of every genre but "TV Movie", in order. */
  function GenrePaths(genres: seq<string>): (paths: seq<string>)
    ensures |paths| <= |genres|
    ensures EXCLUDED_GENRE !in genres ==> |paths| == |genres|
  {
    if genres == [] then []
    else
      var rest := GenrePaths(genres[1..]);
      if genres[0] == EXCLUDED_GENRE then rest else [GenrePath(genres[0])] + rest
  }

  /** Every genre but "TV Movie" has its path in the list, and every path
      in the list is such a genre's. */
  lemma {:induction false} GenrePathsCover(genres: seq<string>)
    ensures forall g :: g in genres && g != EXCLUDED_GENRE ==> GenrePath(g) in GenrePaths(genres)
    ensures forall p :: p in GenrePaths(genres) ==> exists g :: g in genres && g != EXCLUDED_GENRE && p == GenrePath(g)
  {
    if genres != [] {
      GenrePathsCover(genres[1..]);
      assert forall g :: g in genres[1..] ==> g in genres;
      assert forall g :: g in genres ==> g == genres[0] || g in genres[1..];
    }
  }

  /** The error a genre's walk ends the job with: an axios error as is,
      otherwise `BetterloxApiError` passes and the rest is wrapped with a
      message naming the genre. */
  function GenreError(t: Thrown, genre: string): (e: Thrown)
    ensures IsAxios(t) ==> e == t
    ensures !IsAxios(t) ==> IsBetterlox(e)
    ensures !IsAxios(t) && !IsBetterlox(t) ==>
      e == Raised(BetterloxApiError("Error found during genre page scraping and processing, for genre: " + genre, t))
  {
    if IsAxios(t) then t
    else AsBetterlox(t, "Error found during genre page scraping and processing, for genre: " + genre)
  }

  /** What each genre's discovery walk gives, by genre path. */
  type GenreBatches = string -> Result<seq<ScrapedMovie>, Thrown>

  /** The genre batches of a source: each path's popular walk capped at
      `moviesPerGenre`. */
  function PopularGenreBatches(src: PopularSource, moviesPerGenre: int): GenreBatches {
    (path: string) => PopularBatch(src.genrePages(path), src, moviesPerGenre)
  }

  /** The genre walk over the first `i` paths; the first failure ends it. */
  function GenresWalk(batchOf: GenreBatches, paths: seq<string>, i: nat): Result<seq<ScrapedMovie>, Thrown>
    requires i <= |paths|
  {
    if i == 0 then Ok([])
    else
      match GenresWalk(batchOf, paths, i - 1)
      case Err(t) => Err(t)
      case Ok(done) =>
        match batchOf(paths[i - 1])
        case Ok(batch) => Ok(done + batch)
        case Err(t) => Err(GenreError(t, paths[i - 1]))
  }

  /** When no genre yields more than `cap` movies, `i` genres yield at
      most `i * cap`. */
  lemma {:induction false} GenresWithinCap(batchOf: GenreBatches, cap: int, paths: seq<string>, i: nat)
    requires 0 <= cap && i <= |paths|
    requires forall p :: batchOf(p).Ok? ==> |batchOf(p).value| <= cap
    ensures GenresWalk(batchOf, paths, i).Ok? ==> |GenresWalk(batchOf, paths, i).value| <= i * cap
  {
    if i > 0 {
      GenresWithinCap(batchOf, cap, paths, i - 1);
      assert i * cap == (i - 1) * cap + cap;
    }
  }

  /** Every genre of a source yields at most `moviesPerGenre` movies. */
  lemma PopularGenreBatchesWithinCap(src: PopularSource, moviesPerGenre: int)
    requires 0 <= moviesPerGenre
    ensures forall p :: PopularGenreBatches(src, moviesPerGenre)(p).Ok? ==>
      |PopularGenreBatches(src, moviesPerGenre)(p).value| <= moviesPerGenre
  {
    forall p
      ensures PopularGenreBatches(src, moviesPerGenre)(p).Ok? ==>
        |PopularGenreBatches(src, moviesPerGenre)(p).value| <= moviesPerGenre
    {
      PopularBatchWithinCap(src.genrePages(p), src, moviesPerGenre);
    }
  }

  /** The genre job gathers at most `moviesPerGenre` movies per genre path. */
  lemma PopularGenresWithinCap(src: PopularSource, moviesPerGenre: int, genres: seq<string>)
    requires 0 <= moviesPerGenre
    ensures var paths := GenrePaths(genres);
      var walk := GenresWalk(PopularGenreBatches(src, moviesPerGenre), paths, |paths|);
      walk.Ok? ==> |walk.value| <= |paths| * moviesPerGenre
  {
    PopularGenreBatchesWithinCap(src, moviesPerGenre);
    GenresWithinCap(PopularGenreBatches(src, moviesPerGenre), moviesPerGenre, GenrePaths(genres), |GenrePaths(genres)|);
  }

  /** A failed genre ends the walk: later genres change nothing. */
  lemma {:induction false} GenresErrorSticks(batchOf: GenreBatches, paths: seq<string>, i: nat, j: nat)
    requires i <= j <= |paths|
    requires GenresWalk(batchOf, paths, i).Err?
    ensures GenresWalk(batchOf, paths, j) == GenresWalk(batchOf, paths, i)
    decreases j - i
  {
    if j > i {
      GenresErrorSticks(batchOf, paths, i, j - 1);
    }
  }

  /** The loop of `syncPopularMoviesPerGenre`: one walk per genre path,
      in order, the first failure ending them all. */
  method WalkGenres(batchOf: GenreBatches, paths: seq<string>)
    returns (r: Result<seq<ScrapedMovie>, Thrown>)
    ensures r == GenresWalk(batchOf, paths, |paths|)
  {
    var results: seq<ScrapedMovie> := [];
    var i := 0;
    while i < |paths|
      invariant 0 <= i <= |paths|
      invariant GenresWalk(batchOf, paths, i) == Ok(results)
    {
      var genre := paths[i];
      var nextBatch := batchOf(genre);
      if nextBatch.Err? {
        GenresErrorSticks(batchOf, paths, i + 1, |paths|);
        return Err(GenreError(nextBatch.error, genre));
      }
      results := results + nextBatch.value;
      i := i + 1;
    }
    r := Ok(results);
  }

  /** The names of the movies, in order. */
  function Names(movies: seq<ScrapedMovie>): (names: seq<Option<string>>)
    ensures |names| == |movies|
    ensures forall k :: 0 <= k < |movies| ==> names[k] == movies[k].name
  {
    seq(|movies|, k requires 0 <= k < |movies| => movies[k].name)
  }

  /** What `syncPopularMoviesPerGenre` returns. */
  datatype GenreResult = GenreResult(movies: seq<Option<string>>, cachedCount: nat)

  /** `syncPopularMoviesPerGenre` over the genre list `genres`. The sync
      is queued with its type and ended complete with the total only when
      every genre's walk succeeds. */
  method SyncPopularMoviesPerGenre(repo: SyncRepository, src: PopularSource, genres: seq<string>,
                                   moviesPerGenre: int, now: int, endNow: int)
    returns (r: Result<GenreResult, Thrown>, sync: Sync)
    requires repo.Valid()
    modifies repo
    ensures repo.Valid() && fresh(sync)
    ensures sync.id.Some? && sync.id.value !in old(repo.rows)
    ensures repo.rows == old(repo.rows)[sync.id.value := sync.Row()]
    ensures var walk := GenresWalk(PopularGenreBatches(src, moviesPerGenre), GenrePaths(genres), |GenrePaths(genres)|);
      && (walk.Err? ==> r == Err(walk.error) && sync.Row() == QueuedRow(PopularMoviesGenre, sync.id.value))
      && (walk.Ok? ==> (r == Ok(GenreResult(Names(walk.value), |walk.value|))
            && sync.Row() == EndedRow(QueuedRow(PopularMoviesGenre, sync.id.value),
                                      CompleteOptions(|walk.value|, None), endNow)))
  {
    r, sync := SyncGenrePaths(repo, PopularGenreBatches(src, moviesPerGenre), GenrePaths(genres), now, endNow);
  }

  /** The body of `syncPopularMoviesPerGenre` once the genre paths are
      known: queue the typed sync, walk the paths, end the sync complete
      with the total only when the walk succeeds. */
  method SyncGenrePaths(repo: SyncRepository, batchOf: GenreBatches, paths: seq<string>, now: int, endNow: int)
    returns (r: Result<GenreResult, Thrown>, sync: Sync)
    requires repo.Valid()
    modifies repo
    ensures repo.Valid() && fresh(sync)
    ensures sync.id.Some? && sync.id.value !in old(repo.rows)
    ensures repo.rows == old(repo.rows)[sync.id.value := sync.Row()]
    ensures var walk := GenresWalk(batchOf, paths, |paths|);
      && (walk.Err? ==> r == Err(walk.error) && sync.Row() == QueuedRow(PopularMoviesGenre, sync.id.value))
      && (walk.Ok? ==> (r == Ok(GenreResult(Names(walk.value), |walk.value|))
            && sync.Row() == EndedRow(QueuedRow(PopularMoviesGenre, sync.id.value),
                                      CompleteOptions(|walk.value|, None), endNow)))
  {
    sync := repo.QueueTyped(PopularMoviesGenre, now);
    var walk := WalkGenres(batchOf, paths);
    if walk.Err? {
      return Err(walk.error), sync;
    }
    repo.EndSync(sync, CompleteOptions(|walk.value|, None), endNow);
    r := Ok(GenreResult(Names(walk.value), |walk.value|));
  }
}
