/** The per-page entry scrapers of src/lib/letterboxd.ts: a user's
    rated-date films page (`scrapeWatchesByPage` with its parsers) and a
    diary page (`scrapeDiaryEntriesByPage`). Ratings are half-stars: the
    class `rated-N` stands for N/2 stars.

    The extractor's output is a parameter; `filmPage(slug)` is what the
    film's own page gives (or what its fetch threw) and `parseDate` is
    `new Date(..)`. */
module LetterboxdWatches {
  import opened Wrappers
  import opened JsText
  import opened Seqs
  import opened Scraped
  import opened Failures

  type FilmPages = string -> Result<FilmPage, Thrown>
  type DateParser = string -> DateValue

  /** The first match of `/rated-([0-9]{1,2})/` in a class string, as the
      captured number (one or two digits, so below 100). */
  function RatingMatch(s: string): (r: Option<nat>)
    ensures r.Some? ==> r.value < 100
    decreases |s|
  {
    if |s| < 7 then None
    else if s[..6] == "rated-" && IsDigit(s[6]) then
      Some(if |s| >= 8 && IsDigit(s[7]) then 10 * DigitValue(s[6]) + DigitValue(s[7]) else DigitValue(s[6]))
    else RatingMatch(s[1..])
  }

  /** `getRatingFromElement` in half-stars: a missing class reads as "". */
  function RatingFromClass(cls: Option<string>): Option<nat> {
    RatingMatch(cls.GetOr(""))
  }

  /** A class list that starts with `rated-N` (N below 100, followed by
      nothing or a non-digit) yields N. */
  lemma RatingOfRatedClass(n: nat, rest: string)
    requires n < 100
    requires rest == [] || !IsDigit(rest[0])
    ensures RatingMatch("rated-" + NatString(n) + rest) == Some(n)
  {
    var s := "rated-" + NatString(n) + rest;
    assert s[..6] == "rated-";
    if n < 10 {
      assert NatString(n) == [DigitChar(n)];
      assert s[6] == DigitChar(n);
      assert |s| >= 8 ==> s[7] == rest[0];
    } else {
      assert NatString(n / 10) == [DigitChar(n / 10)];
      assert NatString(n) == [DigitChar(n / 10), DigitChar(n % 10)];
      assert s[6] == DigitChar(n / 10) && s[7] == DigitChar(n % 10);
    }
  }

  /** A leading character other than `r` cannot start a match. */
  lemma RatingSkipsChar(c: char, s: string)
    requires c != 'r'
    ensures RatingMatch([c] + s) == RatingMatch(s)
  {
    var t := [c] + s;
    if |t| >= 7 {
      assert t[..6][0] == c;
      assert t[1..] == s;
    }
  }

  /** The leading `rating ` class of a rating span never matches. */
  lemma RatingSkipsRatingClass(s: string)
    ensures RatingMatch("rating " + s) == RatingMatch(s)
  {
    var t1 := [' '] + s;
    var t2 := ['g'] + t1;
    var t3 := ['n'] + t2;
    var t4 := ['i'] + t3;
    var t5 := ['t'] + t4;
    var t6 := ['a'] + t5;
    var full := ['r'] + t6;
    RatingSkipsChar(' ', s);
    RatingSkipsChar('g', t1);
    RatingSkipsChar('n', t2);
    RatingSkipsChar('i', t3);
    RatingSkipsChar('t', t4);
    RatingSkipsChar('a', t5);
    assert full[3] == 'i';
    assert full[..6] != "rated-" by { assert "rated-"[3] == 'e'; }
    assert full[1..] == t6;
    assert "rating " + s == full;
  }

  /** The class attribute of a rating span, `rating rated-N`, yields N. */
  lemma RatingOfRatingSpan(n: nat)
    requires n < 100
    ensures RatingMatch("rating " + ("rated-" + NatString(n))) == Some(n)
  {
    RatingOfRatedClass(n, "");
    assert "rated-" + NatString(n) + "" == "rated-" + NatString(n);
    RatingSkipsRatingClass("rated-" + NatString(n));
  }

  /** What reading `filmSlug` off the data of a missing poster throws. */
  const MISSING_POSTER_ERROR := Raised(TypeError("Cannot read properties of undefined (reading 'filmSlug')"))

  /** `parseWatchPoster`: an item without poster data throws; a string
      `filmSlug` becomes the slug and its page's TMDB id (when a number)
      the movie id; the page fetch may throw. */
  function ParseWatchPoster(item: WatchItem, filmPage: FilmPages): (r: Result<FilmEntry, Thrown>)
    ensures !item.hasPoster ==> r == Err(MISSING_POSTER_ERROR)
    ensures item.hasPoster && item.filmSlug.None? ==> r == Ok(NoEntry)
    ensures item.hasPoster && item.filmSlug.Some? ==> (r.Err? <==> filmPage(item.filmSlug.value).Err?)
    ensures r.Ok? && item.filmSlug.Some? ==>
      r.value == NoEntry.(letterboxdSlug := item.filmSlug, movieId := filmPage(item.filmSlug.value).value.tmdbId)
  {
    if !item.hasPoster then Err(MISSING_POSTER_ERROR)
    else match item.filmSlug
    case None => Ok(NoEntry)
    case Some(slug) =>
      match filmPage(slug)
      case Err(t) => Err(t)
      case Ok(p) => Ok(NoEntry.(letterboxdSlug := Some(slug), movieId := p.tmdbId))
  }

  /** `parseViewingData`: a non-zero rating (a zero one is dropped), the
      heart iff exactly one liked icon, and a non-empty watch date that
      parses. */
  function ParseViewingData(item: WatchItem, parseDate: DateParser): (w: FilmEntry)
    ensures w.stars.Some? <==> RatingFromClass(item.ratingClass).Some? && RatingFromClass(item.ratingClass).value != 0
    ensures w.stars.Some? ==> w.stars == Some(HalfStars(RatingFromClass(item.ratingClass).value))
    ensures w.heart == Some(item.likedIcons == 1)
    ensures w.date.Some? <==> item.watchDate.Some? && item.watchDate.value != "" && parseDate(item.watchDate.value) != InvalidDate
    ensures w.date.Some? ==> w.date == Some(parseDate(item.watchDate.value))
    ensures w.movieId.None? && w.name.None? && w.letterboxdSlug.None? && w.sortId.None? && w.userId.None? && w.rewatch.None?
  {
    var rating := RatingFromClass(item.ratingClass);
    var stars := if rating.Some? && rating.value != 0 then Some(HalfStars(rating.value)) else None;
    var date :=
      if item.watchDate.Some? && item.watchDate.value != "" && parseDate(item.watchDate.value) != InvalidDate
      then Some(parseDate(item.watchDate.value)) else None;
    NoEntry.(stars := stars, heart := Some(item.likedIcons == 1), date := date)
  }

  /** One watch before numbering: the poster details, the image's alt as
      the name, and the viewing data, merged. */
  function WatchEntry(item: WatchItem, filmPage: FilmPages, parseDate: DateParser): (r: Result<FilmEntry, Thrown>)
    ensures r.Err? <==> ParseWatchPoster(item, filmPage).Err?
    ensures r.Ok? ==> r.value.letterboxdSlug == item.filmSlug && r.value.name == item.imgAlt
    ensures r.Ok? ==> r.value.movieId == ParseWatchPoster(item, filmPage).value.movieId
    ensures r.Ok? ==> var v := ParseViewingData(item, parseDate);
      r.value.stars == v.stars && r.value.heart == v.heart && r.value.date == v.date
  {
    match ParseWatchPoster(item, filmPage)
    case Err(t) => Err(t)
    case Ok(poster) =>
      var view := ParseViewingData(item, parseDate);
      Ok(poster.(name := item.imgAlt, stars := view.stars, heart := view.heart, date := view.date))
  }

  /** `maxSync` is truthy: present and not zero. */
  predicate Capped(maxSync: Option<int>) {
    maxSync.Some? && maxSync.value != 0
  }

  /** How many of `n` posters a page numbers: all of them, or with a
      truthy `maxSync` only those whose sort id stays within it. */
  function WatchLimit(n: nat, syncCount: int, maxSync: Option<int>): (k: nat)
    ensures k <= n
    ensures Capped(maxSync) ==> syncCount + k <= maxSync.value || k == 0
    ensures Capped(maxSync) && k < n ==> syncCount + k >= maxSync.value
    ensures !Capped(maxSync) ==> k == n
  {
    if Capped(maxSync) then Max(0, Min(maxSync.value - syncCount, n)) else n
  }

  /** The numbered watch at position `k` of the page. */
  function NumberedWatch(w: FilmEntry, collectionDate: DateValue, syncCount: int, k: nat): FilmEntry {
    w.(date := Some(collectionDate), sortId := Some(syncCount + 1 + k))
  }

  /** The scrape of posters `i` to `n` of a page, `watches` numbered
      before: each poster's watch numbered in turn, or the first
      poster's failure. */
  function ScrapedFrom(items: seq<WatchItem>, filmPage: FilmPages, parseDate: DateParser, collectionDate: DateValue,
                       syncCount: int, n: nat, i: nat, watches: seq<FilmEntry>): Result<seq<FilmEntry>, Thrown>
    requires i <= n <= |items|
    decreases n - i
  {
    if i == n then Ok(watches)
    else match WatchEntry(items[i], filmPage, parseDate)
      case Err(t) => Err(t)
      case Ok(e) =>
        ScrapedFrom(items, filmPage, parseDate, collectionDate, syncCount, n, i + 1,
                    watches + [NumberedWatch(e, collectionDate, syncCount, i)])
  }

  /** The outcome of scraping a fetched rated-date page. */
  function ScrapedPage(fetched: Result<seq<WatchItem>, Thrown>, filmPage: FilmPages, parseDate: DateParser,
                       collectionDate: DateValue, syncCount: int, maxSync: Option<int>): Result<seq<FilmEntry>, Thrown>
  {
    match fetched
    case Err(t) => Err(t)
    case Ok(items) =>
      ScrapedFrom(items, filmPage, parseDate, collectionDate, syncCount, WatchLimit(|items|, syncCount, maxSync), 0, [])
  }

  /** `scrapeWatchesByPage`: numbers the page's watches consecutively from
      `syncCount + 1`, stops before the first sort id beyond a truthy
      `maxSync`, and stamps every watch with the collection date (over any
      parsed date). The first poster whose film page fails fails the page. */
  method ScrapeWatchesByPage(fetched: Result<seq<WatchItem>, Thrown>, filmPage: FilmPages, parseDate: DateParser,
                             collectionDate: DateValue, syncCount: int, maxSync: Option<int>)
    returns (r: Result<seq<FilmEntry>, Thrown>)
    ensures r == ScrapedPage(fetched, filmPage, parseDate, collectionDate, syncCount, maxSync)
    ensures fetched.Err? ==> r == Err(fetched.error)
    ensures fetched.Ok? ==> var items := fetched.value; var n := WatchLimit(|items|, syncCount, maxSync);
      && (r.Ok? <==> forall k :: 0 <= k < n ==> WatchEntry(items[k], filmPage, parseDate).Ok?)
      && (r.Ok? ==> |r.value| == n)
      && (r.Ok? ==> forall k :: 0 <= k < n ==>
            r.value[k] == NumberedWatch(WatchEntry(items[k], filmPage, parseDate).value, collectionDate, syncCount, k))
      && (r.Err? ==> exists k :: (0 <= k < n && WatchEntry(items[k], filmPage, parseDate) == Err(r.error)
            && forall j :: 0 <= j < k ==> WatchEntry(items[j], filmPage, parseDate).Ok?))
    ensures r.Ok? ==> forall k :: 0 <= k < |r.value| ==>
      r.value[k].sortId == Some(syncCount + 1 + k) && r.value[k].date == Some(collectionDate)
    ensures r.Ok? && Capped(maxSync) ==> forall k :: 0 <= k < |r.value| ==> r.value[k].sortId.value <= maxSync.value
  {
    if fetched.Err? {
      return Err(fetched.error);
    }
    var items := fetched.value;
    if |items| == 0 {
      return Ok([]);
    }
    var sortIdBase := syncCount + 1;
    ghost var n := WatchLimit(|items|, syncCount, maxSync);
    var watches: seq<FilmEntry> := [];
    var i := 0;
    while i < |items|
      invariant 0 <= i <= n
      invariant ScrapedFrom(items, filmPage, parseDate, collectionDate, syncCount, n, i, watches)
             == ScrapedPage(fetched, filmPage, parseDate, collectionDate, syncCount, maxSync)
      invariant |watches| == i
      invariant forall k :: 0 <= k < i ==> WatchEntry(items[k], filmPage, parseDate).Ok?
      invariant forall k :: 0 <= k < i ==>
        watches[k] == NumberedWatch(WatchEntry(items[k], filmPage, parseDate).value, collectionDate, syncCount, k)
    {
      if Capped(maxSync) && sortIdBase + i > maxSync.value {
        break;
      }
      var entry := WatchEntry(items[i], filmPage, parseDate);
      if entry.Err? {
        return Err(entry.error);
      }
      watches := watches + [NumberedWatch(entry.value, collectionDate, syncCount, i)];
      i := i + 1;
    }
    r := Ok(watches);
  }

  /** The order in which a diary page is processed. */
  datatype Direction = Up | Down

  /** The first class that starts with `rated-`. */
  function FirstRatedClass(classes: seq<string>): (r: Option<string>)
    ensures r.Some? ==> r.value in classes && StartsWith(r.value, "rated-")
    ensures r.None? ==> forall k :: 0 <= k < |classes| ==> !StartsWith(classes[k], "rated-")
  {
    if classes == [] then None
    else if StartsWith(classes[0], "rated-") then Some(classes[0])
    else FirstRatedClass(classes[1..])
  }

  /** A diary row's stars: `Number` of what follows `rated-` in the first
      such class, halved (NaN when it is not a number). */
  function DiaryStars(cls: Option<string>): Option<Stars> {
    if cls.None? then None
    else match FirstRatedClass(Split(cls.value, ' '))
      case None => None
      case Some(rated) =>
        match ToNumber(Substring(rated, 6))
        case Num(v) => Some(HalfStars(v))
        case NaN => Some(StarsNaN)
  }

  /** The date part of a diary day link: its 6th to 8th `/`-pieces. */
  function DiaryDatePath(entryUrl: string): string {
    Join(SliceRange(Split(entryUrl, '/'), 5, 8), '/')
  }

  /** One diary row. A row without poster data throws; the movie id is
      taken only from a page that says it is a movie; the heart is set only for exactly three like spans; the
      rewatch flag is always set. */
  function DiaryEntry(row: DiaryRow, filmPage: FilmPages, parseDate: DateParser): (r: Result<FilmEntry, Thrown>)
    ensures r.Err? <==> !row.hasPoster || (row.filmSlug.Some? && filmPage(row.filmSlug.value).Err?)
    ensures !row.hasPoster ==> r == Err(MISSING_POSTER_ERROR)
    ensures r.Ok? ==> r.value.letterboxdSlug == row.filmSlug && r.value.name == row.imgAlt
    ensures r.Ok? ==> (r.value.movieId.Some? <==> (row.filmSlug.Some?
      && filmPage(row.filmSlug.value).value.tmdbId.Some? && filmPage(row.filmSlug.value).value.tmdbType == Some("movie")))
    ensures r.Ok? && r.value.movieId.Some? ==> r.value.movieId == filmPage(row.filmSlug.value).value.tmdbId
    ensures r.Ok? ==> r.value.stars == DiaryStars(row.ratingClass)
    ensures r.Ok? ==> (r.value.heart == if row.likeSpans == 3 then Some(true) else None)
    ensures r.Ok? ==> r.value.rewatch == Some(!row.rewatchStatusOff)
    ensures r.Ok? ==> (r.value.date.Some? <==> row.entryUrl.Some?)
    ensures r.Ok? && row.entryUrl.Some? ==> r.value.date == Some(parseDate(DiaryDatePath(row.entryUrl.value)))
  {
    var fromPoster: Result<FilmEntry, Thrown> :=
      if !row.hasPoster then Err(MISSING_POSTER_ERROR)
      else match row.filmSlug
      case None => Ok(NoEntry)
      case Some(slug) =>
        match filmPage(slug)
        case Err(t) => Err(t)
        case Ok(p) =>
          Ok(NoEntry.(letterboxdSlug := Some(slug),
                      movieId := if p.tmdbId.Some? && p.tmdbType == Some("movie") then p.tmdbId else None));
    match fromPoster
    case Err(t) => Err(t)
    case Ok(e) =>
      Ok(e.(name := row.imgAlt,
            stars := DiaryStars(row.ratingClass),
            heart := if row.likeSpans == 3 then Some(true) else None,
            rewatch := Some(!row.rewatchStatusOff),
            date := if row.entryUrl.Some? then Some(parseDate(DiaryDatePath(row.entryUrl.value))) else None))
  }

  /** The rows of a diary page in the order they are processed. */
  function InDirection(rows: seq<DiaryRow>, direction: Direction): seq<DiaryRow> {
    if direction == Up then Reverse(rows) else rows
  }

  /** `scrapeDiaryEntriesByPage`: every row of the page, in page order or,
      going up, in reverse; the first row whose film page fails fails the
      page. */
  function ScrapeDiaryEntriesByPage(fetched: Result<seq<DiaryRow>, Thrown>, direction: Direction,
                                    filmPage: FilmPages, parseDate: DateParser): (r: Result<seq<FilmEntry>, Thrown>)
    ensures fetched.Err? ==> r == Err(fetched.error)
    ensures fetched.Ok? && r.Ok? ==> |r.value| == |fetched.value|
    ensures fetched.Ok? ==> var rows := InDirection(fetched.value, direction);
      && (r.Ok? <==> forall k :: 0 <= k < |rows| ==> DiaryEntry(rows[k], filmPage, parseDate).Ok?)
      && (r.Ok? ==> forall k :: 0 <= k < |rows| ==> r.value[k] == DiaryEntry(rows[k], filmPage, parseDate).value)
      && (r.Err? ==> exists k :: (0 <= k < |rows| && DiaryEntry(rows[k], filmPage, parseDate) == Err(r.error)
            && forall j :: 0 <= j < k ==> DiaryEntry(rows[j], filmPage, parseDate).Ok?))
  {
    match fetched
    case Err(t) => Err(t)
    case Ok(rows) =>
      if rows == [] then Ok([])
      else MapAll(InDirection(rows, direction), (row: DiaryRow) => DiaryEntry(row, filmPage, parseDate))
  }

  /** Going up gives the entries of going down in reverse order. */
  lemma DiaryUpReversesDown(rows: seq<DiaryRow>, filmPage: FilmPages, parseDate: DateParser)
    requires ScrapeDiaryEntriesByPage(Ok(rows), Down, filmPage, parseDate).Ok?
    ensures ScrapeDiaryEntriesByPage(Ok(rows), Up, filmPage, parseDate)
         == Ok(Reverse(ScrapeDiaryEntriesByPage(Ok(rows), Down, filmPage, parseDate).value))
  {
    if rows != [] {
      MapAllReverse(rows, (row: DiaryRow) => DiaryEntry(row, filmPage, parseDate));
    }
  }

  /** Splitting the join of separator-free pieces gives back the pieces. */
  lemma {:induction false} SplitJoin(pieces: seq<string>, sep: char)
    requires |pieces| >= 1
    requires forall k :: 0 <= k < |pieces| ==> sep !in pieces[k]
    ensures Split(Join(pieces, sep), sep) == pieces
    decreases |pieces|
  {
    if |pieces| == 1 {
      SplitNoSeparator(pieces[0], sep);
    } else {
      SplitJoin(pieces[1..], sep);
      assert Join(pieces, sep) == pieces[0] + [sep] + Join(pieces[1..], sep);
      SplitAtSeparator(pieces[0], sep, Join(pieces[1..], sep));
    }
  }

  /** A string without the separator splits into itself. */
  lemma {:induction false} SplitNoSeparator(s: string, sep: char)
    requires sep !in s
    ensures Split(s, sep) == [s]
    decreases |s|
  {
    if |s| > 0 {
      SplitNoSeparator(s[1..], sep);
      assert [s[0]] + s[1..] == s;
    }
  }

  /** A diary day link, whose `/`-pieces are `""`, the user, `films`,
      `diary`, `for`, the year, month and day, and `""`, gives the date
      text `<year>/<month>/<day>`. */
  lemma DiaryDateOfDayLink(user: string, y: string, m: string, d: string)
    requires '/' !in user && '/' !in y && '/' !in m && '/' !in d
    ensures DiaryDatePath(Join(["", user, "films", "diary", "for", y, m, d, ""], '/')) == y + "/" + m + "/" + d
  {
    var pieces := ["", user, "films", "diary", "for", y, m, d, ""];
    SplitJoin(pieces, '/');
    assert SliceRange(pieces, 5, 8) == [y, m, d];
    assert Join([d], '/') == d;
    assert Join([m, d], '/') == m + ['/'] + d;
    assert Join([y, m, d], '/') == y + ['/'] + (m + ['/'] + d);
  }
}
