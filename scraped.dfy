/** Partial records produced by scraping, and the field-extractor outputs
    the walkers consume. Every field the page may omit is an `Option`:
    absence means "unknown", never false or zero. */
module Scraped {
  import opened Wrappers

  /** A parsed JavaScript `Date`: an instant in milliseconds or
      "Invalid Date". */
  datatype DateValue = Instant(ms: int) | InvalidDate

  /** A rating in half-stars: the class `rated-N` stands for N/2 stars.
      `Number(..)` of a malformed class suffix gives NaN. */
  datatype Stars = HalfStars(n: int) | StarsNaN

  /** A movie found on a poster-list page. `averageRating` is carried but
      never computed with. */
  datatype ScrapedMovie = ScrapedMovie(
    id: Option<int>,
    averageRating: Option<real>,
    letterboxdSlug: Option<string>,
    name: Option<string>)

  const NoMovie := ScrapedMovie(None, None, None, None)

  /** `Partial<FilmEntry>`: a watch or diary entry. */
  datatype FilmEntry = FilmEntry(
    movieId: Option<int>,
    name: Option<string>,
    letterboxdSlug: Option<string>,
    stars: Option<Stars>,
    heart: Option<bool>,
    rewatch: Option<bool>,
    date: Option<DateValue>,
    sortId: Option<int>,
    userId: Option<int>)

  const NoEntry := FilmEntry(None, None, None, None, None, None, None, None, None)

  /** What the extractor reads from a film's own page: the body's
      `tmdb-id` as a number (None when `Number(..)` is NaN), its
      `tmdb-type`, and the headline text. */
  datatype FilmPage = FilmPage(tmdbId: Option<int>, tmdbType: Option<string>, headline: string)

  /** The poster's data attributes: `filmSlug` when it is a string,
      `filmName` when the key is present. */
  datatype FilmData = FilmData(filmSlug: Option<string>, filmName: Option<string>)

  /** One `li` of a poster list: the container's `averageRating`, the
      poster's data (None when the poster has none) and the image's alt. */
  datatype PosterItem = PosterItem(
    averageRating: Option<real>,
    filmData: Option<FilmData>,
    imgAlt: Option<string>)

  /** One `li` of a user's rated-date films page: whether it has a
      `.film-poster` with data at all, the poster's `filmSlug`, the image's
      alt, the `class` attribute of `span.rating` (None when
      missing), the number of liked icons and the `time` element's
      `datetime`. */
  datatype WatchItem = WatchItem(
    hasPoster: bool,
    filmSlug: Option<string>,
    imgAlt: Option<string>,
    ratingClass: Option<string>,
    likedIcons: nat,
    watchDate: Option<string>)

  /** One diary row: whether it has a `.film-poster` with data, the
      poster's `filmSlug`, the image's alt, the rating
      span's `class`, the number of `.diary-like span` elements, whether
      the rewatch cell has the class `icon-status-off`, and the day link's
      `href`. */
  datatype DiaryRow = DiaryRow(
    hasPoster: bool,
    filmSlug: Option<string>,
    imgAlt: Option<string>,
    ratingClass: Option<string>,
    likeSpans: nat,
    rewatchStatusOff: bool,
    entryUrl: Option<string>)
}
