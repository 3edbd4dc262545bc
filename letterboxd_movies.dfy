/** The poster-list scrapers of src/lib/letterboxd.ts: one film page,
    one poster-list page, and the discovery walk over consecutive pages.

    Fetching and HTML extraction are parameters: `pages(n)` is what the
    extractor finds on page `n` of the list (or what the fetch threw), and
    `filmPage(slug)` what it finds on a film's own page. */
module LetterboxdMovies {
  import opened Wrappers
  import opened JsText
  import opened Scraped
  import opened Failures
  import opened Seqs

  type PosterPages = int -> Result<seq<PosterItem>, Thrown>
  type FilmPages = string -> Result<FilmPage, Thrown>
  type PageHook = seq<ScrapedMovie> -> Result<seq<ScrapedMovie>, Thrown>

  const DEFAULT_MAX_PAGES := 50

  /** `scrapeMovieByUrl`: the film's TMDB id (absent when not a number),
      its headline as the name, and the URL as the slug. */
  function ScrapeMovieByUrl(url: string, fetched: Result<FilmPage, Thrown>): (r: Result<ScrapedMovie, Thrown>)
    ensures fetched.Err? ==> r == Err(fetched.error)
    ensures fetched.Ok? ==> r.Ok?
    ensures r.Ok? ==> r.value.id == fetched.value.tmdbId && r.value.name == Some(fetched.value.headline)
    ensures r.Ok? ==> r.value.letterboxdSlug == Some(url) && r.value.averageRating.None?
  {
    match fetched
    case Err(t) => Err(t)
    case Ok(p) => Ok(ScrapedMovie(p.tmdbId, None, Some(url), Some(p.headline)))
  }

  predicate TruthyName(n: Option<string>) {
    n.Some? && n.value != ""
  }

  /** The poster's `filmSlug`, when it has poster data with a string slug. */
  function SlugOf(item: PosterItem): Option<string> {
    if item.filmData.Some? then item.filmData.value.filmSlug else None
  }

  /** The film's own page was fetched and has a non-empty headline. */
  predicate HeadlineNamed(item: PosterItem, filmPage: FilmPages) {
    SlugOf(item).Some? && filmPage(SlugOf(item).value).Ok? && filmPage(SlugOf(item).value).value.headline != ""
  }

  /** The poster data carries a non-empty `filmName`. */
  predicate PosterNamed(item: PosterItem) {
    item.filmData.Some? && TruthyName(item.filmData.value.filmName)
  }

  /** One poster of a list page. The name comes from the film's own page
      when that has a non-empty headline, else from the poster's
      `filmName` when that is non-empty, else from the image's alt text;
      the id only from a film page with a non-zero TMDB id. */
  function ScrapeMovieItem(item: PosterItem, filmPage: FilmPages): (r: Result<ScrapedMovie, Thrown>)
    ensures r.Err? <==> SlugOf(item).Some? && filmPage(SlugOf(item).value).Err?
    ensures r.Ok? ==> r.value.letterboxdSlug == SlugOf(item)
    ensures r.Ok? && HeadlineNamed(item, filmPage) ==> r.value.name == Some(filmPage(SlugOf(item).value).value.headline)
    ensures r.Ok? && !HeadlineNamed(item, filmPage) && PosterNamed(item) ==> r.value.name == item.filmData.value.filmName
    ensures r.Ok? && !HeadlineNamed(item, filmPage) && !PosterNamed(item) ==> r.value.name == item.imgAlt
    ensures r.Ok? ==> (r.value.id.Some? <==>
      SlugOf(item).Some? && filmPage(SlugOf(item).value).value.tmdbId.Some? && filmPage(SlugOf(item).value).value.tmdbId.value != 0)
    ensures r.Ok? && r.value.id.Some? ==> r.value.id == filmPage(SlugOf(item).value).value.tmdbId
    ensures r.Ok? ==> (r.value.averageRating.Some? <==> item.averageRating.Some? && item.averageRating.value != 0.0)
    ensures r.Ok? && r.value.averageRating.Some? ==> r.value.averageRating == item.averageRating
  {
    var rating := if item.averageRating.Some? && item.averageRating.value != 0.0 then item.averageRating else None;
    var m := NoMovie.(averageRating := rating);
    var m := if item.filmData.Some? && item.filmData.value.filmName.Some? then m.(name := item.filmData.value.filmName) else m;
    var fromPage: Result<ScrapedMovie, Thrown> :=
      if item.filmData.Some? && item.filmData.value.filmSlug.Some? then
        var slug := item.filmData.value.filmSlug.value;
        match ScrapeMovieByUrl(slug, filmPage(slug))
        case Err(t) => Err(t)
        case Ok(film) =>
          var m := m.(letterboxdSlug := Some(slug));
          var m := if film.id.Some? && film.id.value != 0 then m.(id := film.id) else m;
          Ok(if TruthyName(film.name) then m.(name := film.name) else m)
      else Ok(m);
    match fromPage
    case Err(t) => Err(t)
    case Ok(m) => Ok(if !TruthyName(m.name) then m.(name := item.imgAlt) else m)
  }

  /** The posters of one page in order; the first film page that cannot be
      fetched fails the whole page. */
  function ScrapeItems(items: seq<PosterItem>, filmPage: FilmPages): Result<seq<ScrapedMovie>, Thrown> {
    MapAll(items, (item: PosterItem) => ScrapeMovieItem(item, filmPage))
  }

  /** The posters a page processes: all of them, or the first
      `maxMoviesForPage` when there are more (a negative limit counts from
      the back, as `slice` does). */
  function ElementsToProcess(elements: seq<PosterItem>, maxMoviesForPage: Option<int>): (r: seq<PosterItem>)
    ensures |r| <= |elements| && r == elements[..|r|]
    ensures maxMoviesForPage.Some? && maxMoviesForPage.value >= 0 ==> |r| <= maxMoviesForPage.value
    ensures maxMoviesForPage.None? ==> r == elements
    ensures maxMoviesForPage.Some? && 0 <= maxMoviesForPage.value ==> |r| == Min(|elements|, maxMoviesForPage.value)
  {
    if maxMoviesForPage.Some? && |elements| > maxMoviesForPage.value then SliceTo(elements, maxMoviesForPage.value)
    else elements
  }

  /** `scrapeMoviesByPage`: the page's posters, truncated to the limit. */
  function ScrapeMoviesByPage(fetched: Result<seq<PosterItem>, Thrown>, maxMoviesForPage: Option<int>, filmPage: FilmPages): (r: Result<seq<ScrapedMovie>, Thrown>)
    ensures fetched.Err? ==> r == Err(fetched.error)
    ensures fetched.Ok? && fetched.value == [] ==> r == Ok([])
    ensures r.Ok? && fetched.Ok? ==> |r.value| == |ElementsToProcess(fetched.value, maxMoviesForPage)|
    ensures r.Ok? && maxMoviesForPage.Some? && maxMoviesForPage.value >= 0 ==> |r.value| <= maxMoviesForPage.value
  {
    match fetched
    case Err(t) => Err(t)
    case Ok(elements) =>
      if elements == [] then Ok([])
      else ScrapeItems(ElementsToProcess(elements, maxMoviesForPage), filmPage)
  }

  /** `scrapeMoviesOverPages`: the discovery walk from `page`. Each page's
      batch (after the hook, if one is given) is appended to the
      accumulator; the walk stops on an empty batch, on the last allowed
      page, or once the accumulator holds `maxMovies`. The recursive call
      passes no hook. The result always extends the accumulator. */
  function ScrapeMoviesOverPages(pages: PosterPages, filmPage: FilmPages, maxMovies: Option<int>, maxPages: int,
                                 page: int, movies: seq<ScrapedMovie>, hook: Option<PageHook>): (r: Result<seq<ScrapedMovie>, Thrown>)
    requires page <= maxPages
    ensures r.Ok? ==> movies <= r.value
    decreases maxPages - page
  {
    var maxForPage := if maxMovies.Some? then Some(maxMovies.value - |movies|) else None;
    match ScrapeMoviesByPage(pages(page), maxForPage, filmPage)
    case Err(t) => Err(t)
    case Ok(found) =>
      match (if hook.Some? then hook.value(found) else Ok(found))
      case Err(t) => Err(t)
      case Ok(batch) =>
        var acc := movies + batch;
        if Stops(batch, page, maxPages, maxMovies, acc) then Ok(acc)
        else ScrapeMoviesOverPages(pages, filmPage, maxMovies, maxPages, page + 1, acc, None)
  }

  /** The three stop rules of the walk. */
  predicate Stops(batch: seq<ScrapedMovie>, page: int, maxPages: int, maxMovies: Option<int>, acc: seq<ScrapedMovie>) {
    |batch| == 0 || page == maxPages || (maxMovies.Some? && |acc| >= maxMovies.value)
  }

  /** A page that meets a stop rule ends the walk with the accumulator
      followed by that page's batch. */
  lemma WalkStops(pages: PosterPages, filmPage: FilmPages, maxMovies: Option<int>, maxPages: int, page: int, movies: seq<ScrapedMovie>)
    requires page <= maxPages
    requires var found := ScrapeMoviesByPage(pages(page), if maxMovies.Some? then Some(maxMovies.value - |movies|) else None, filmPage);
      found.Ok? && Stops(found.value, page, maxPages, maxMovies, movies + found.value)
    ensures var found := ScrapeMoviesByPage(pages(page), if maxMovies.Some? then Some(maxMovies.value - |movies|) else None, filmPage);
      ScrapeMoviesOverPages(pages, filmPage, maxMovies, maxPages, page, movies, None) == Ok(movies + found.value)
  {
  }

  /** The hook is applied to the first page only: once the first page does
      not stop the walk, the rest is the hook-less walk from the next page. */
  lemma HookOnlyOnFirstPage(pages: PosterPages, filmPage: FilmPages, maxMovies: Option<int>, maxPages: int,
                            page: int, movies: seq<ScrapedMovie>, hook: PageHook)
    requires page <= maxPages
    requires var found := ScrapeMoviesByPage(pages(page), if maxMovies.Some? then Some(maxMovies.value - |movies|) else None, filmPage);
      found.Ok? && hook(found.value).Ok? && !Stops(hook(found.value).value, page, maxPages, maxMovies, movies + hook(found.value).value)
    ensures var batch := hook(ScrapeMoviesByPage(pages(page), if maxMovies.Some? then Some(maxMovies.value - |movies|) else None, filmPage).value).value;
      ScrapeMoviesOverPages(pages, filmPage, maxMovies, maxPages, page, movies, Some(hook))
      == ScrapeMoviesOverPages(pages, filmPage, maxMovies, maxPages, page + 1, movies + batch, None)
  {
  }

  /** Without a hook, a walk that starts within `maxMovies` ends within it:
      each page is cut to the room left. */
  lemma {:induction false} WalkWithinCap(pages: PosterPages, filmPage: FilmPages, maxMovies: int, maxPages: int,
                                         page: int, movies: seq<ScrapedMovie>)
    requires page <= maxPages && |movies| <= maxMovies
    ensures var r := ScrapeMoviesOverPages(pages, filmPage, Some(maxMovies), maxPages, page, movies, None);
      r.Ok? ==> |r.value| <= maxMovies
    decreases maxPages - page
  {
    var found := ScrapeMoviesByPage(pages(page), Some(maxMovies - |movies|), filmPage);
    if found.Ok? {
      var acc := movies + found.value;
      assert |acc| <= maxMovies;
      if !Stops(found.value, page, maxPages, Some(maxMovies), acc) {
        WalkWithinCap(pages, filmPage, maxMovies, maxPages, page + 1, acc);
      }
    }
  }

  /** A poster with only an alt text, on a list that has two of them on
      every page. */
  function AltOnly(k: int): PosterItem {
    PosterItem(None, None, Some("film"))
  }

  /** Discovery with `maxMovies` 3 over pages of two posters: the first
      page gives two, the second is cut to the one left, and the walk
      stops with three. */
  lemma CapCutsSecondPage(filmPage: FilmPages)
    ensures var pages: PosterPages := (n: int) => Ok([AltOnly(0), AltOnly(1)]);
      ScrapeMoviesOverPages(pages, filmPage, Some(3), DEFAULT_MAX_PAGES, 1, [], None).Ok?
      && |ScrapeMoviesOverPages(pages, filmPage, Some(3), DEFAULT_MAX_PAGES, 1, [], None).value| == 3
  {
    var pages: PosterPages := (n: int) => Ok([AltOnly(0), AltOnly(1)]);
    var two := [AltOnly(0), AltOnly(1)];
    var m := NoMovie.(name := Some("film"));
    assert ScrapeMovieItem(AltOnly(0), filmPage) == Ok(m);
    assert ScrapeMovieItem(AltOnly(1), filmPage) == Ok(m);
    assert two[1..] == [AltOnly(1)];
    var one := [AltOnly(1)];
    assert one[1..] == [];
    assert ScrapeItems(one[1..], filmPage) == Ok([]);
    assert one[0] == AltOnly(1);
    assert [m] + [] == [m];
    assert ScrapeItems(one, filmPage) == Ok([m]);
    assert two[0] == AltOnly(0) && two[1..] == one;
    assert ScrapeItems(two[1..], filmPage) == Ok([m]);
    assert [m] + [m] == [m, m];
    assert ScrapeItems(two, filmPage) == Ok([m, m]);
    assert pages(1) == Ok(two) && pages(2) == Ok(two);
    assert ElementsToProcess(two, Some(3)) == two;
    assert ScrapeMoviesByPage(pages(1), Some(3), filmPage) == Ok([m, m]);
    assert ElementsToProcess(two, Some(1)) == [AltOnly(0)];
    assert ScrapeItems([AltOnly(0)][1..], filmPage) == Ok([]);
    assert ScrapeMoviesByPage(pages(2), Some(1), filmPage) == Ok([m]);
  }
}
