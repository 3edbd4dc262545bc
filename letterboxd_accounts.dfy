/** The account and list scrapers of src/lib/letterboxd.ts: a user's
    profile (`getUserDetails`), one list (`scrapeListByUrl`) and the walk
    over a user's public lists (`scrapeListsForUser`). */
module LetterboxdAccounts {
  import opened Wrappers
  import opened JsText
  import opened Scraped
  import opened Failures
  import LetterboxdMovies

  type DateParser = string -> DateValue

  /** What the extractor reads from a profile page: how many avatar images
      match and the first one's `src`, how many name headings match and
      their text, and how many pro and patron badges there are. */
  datatype ProfilePage = ProfilePage(
    avatarImages: nat,
    avatarSrc: Option<string>,
    nameHeadings: nat,
    nameText: string,
    proBadges: nat,
    patronBadges: nat)

  datatype LetterboxdDetails =
    | NotFound
    | Found(avatar: Option<string>, avatarUrl: string, name: string, isPro: bool, isPatron: bool)

  /** `getUserDetails`: a 404 from the profile fetch means "not found" and
      any other failure is re-thrown. The avatar is read only from a
      single match and turned into a data URL (`dataImage`, which may
      throw) when non-empty; the name only from a single heading; a patron
      counts as pro. */
  function GetUserDetails(fetched: Result<ProfilePage, Thrown>, dataImage: string -> Result<string, Thrown>): (r: Result<LetterboxdDetails, Thrown>)
    ensures fetched.Err? ==> (r == Ok(NotFound) <==> IsAxiosStatus(fetched.error, 404))
    ensures fetched.Err? && !IsAxiosStatus(fetched.error, 404) ==> r == Err(fetched.error)
    ensures fetched.Ok? ==> r != Ok(NotFound)
    ensures r.Ok? && r.value.Found? ==> (r.value.isPatron ==> r.value.isPro)
    ensures r.Ok? && r.value.Found? ==> r.value.isPatron == (fetched.value.patronBadges == 1)
    ensures r.Ok? && r.value.Found? ==> r.value.isPro == (fetched.value.proBadges == 1 || fetched.value.patronBadges == 1)
    ensures r.Ok? && r.value.Found? ==> r.value.name == (if fetched.value.nameHeadings == 1 then fetched.value.nameText else "")
    ensures r.Ok? && r.value.Found? ==> r.value.avatar == (if fetched.value.avatarImages == 1 then fetched.value.avatarSrc else None)
    ensures r.Ok? && r.value.Found? && (r.value.avatar == None || r.value.avatar == Some("")) ==> r.value.avatarUrl == ""
  {
    match fetched
    case Err(t) => if IsAxiosStatus(t, 404) then Ok(NotFound) else Err(t)
    case Ok(p) =>
      var src := if p.avatarImages == 1 then p.avatarSrc else None;
      var dataUrl: Result<string, Thrown> := if src.Some? && src.value != "" then dataImage(src.value) else Ok("");
      match dataUrl
      case Err(t) => Err(t)
      case Ok(avatarUrl) =>
        Ok(Found(src, avatarUrl, if p.nameHeadings == 1 then p.nameText else "",
                 p.proBadges == 1 || p.patronBadges == 1, p.patronBadges == 1))
  }

  /** What the extractor reads from a list's page: the body's `owner` when
      it is a string, the published and updated `datetime`s, the title and
      description texts, and the number of numbered poster items. */
  datatype ListPage = ListPage(
    owner: Option<string>,
    published: Option<string>,
    updated: Option<string>,
    titleText: string,
    descriptionText: string,
    rankedItems: nat)

  datatype ListDetails = ListDetails(
    publishDate: Option<DateValue>,
    lastUpdated: Option<DateValue>,
    title: string,
    description: string,
    letterboxdUsername: Option<string>,
    url: string,
    isRanked: bool,
    visibility: string)

  datatype ScrapedList = ScrapedList(details: ListDetails, movieIds: seq<int>, owner: Option<string>)

  /** The ids of the films that have one, in order. */
  function PresentIds(films: seq<ScrapedMovie>): (ids: seq<int>)
    ensures |ids| <= |films|
    ensures forall k :: 0 <= k < |ids| ==> exists j :: 0 <= j < |films| && films[j].id == Some(ids[k])
    ensures (forall j :: 0 <= j < |films| ==> films[j].id.Some?) ==> |ids| == |films|
  {
    if films == [] then []
    else
      var rest := PresentIds(films[1..]);
      assert forall k :: 0 <= k < |rest| ==> exists j :: 0 <= j < |films| && films[j].id == Some(rest[k]) by {
        forall k | 0 <= k < |rest| ensures exists j :: 0 <= j < |films| && films[j].id == Some(rest[k]) {
          var j :| 0 <= j < |films[1..]| && films[1..][j].id == Some(rest[k]);
          assert films[j + 1].id == Some(rest[k]);
        }
      }
      if films[0].id.Some? then [films[0].id.value] + rest else rest
  }

  /** A date attribute that is present and non-empty, parsed. */
  function ParsedDate(attr: Option<string>, parseDate: DateParser): Option<DateValue> {
    if attr.Some? && attr.value != "" then Some(parseDate(attr.value)) else None
  }

  /** `scrapeListByUrl`: the list's details and the ids of its films, found
      by the discovery walk over the list's own pages with the default page
      cap and no film cap. The last-updated date falls back to the publish
      date; a failed walk fails the list. */
  function ScrapeListByUrl(url: string, fetched: Result<ListPage, Thrown>, posters: LetterboxdMovies.PosterPages,
                           filmPage: LetterboxdMovies.FilmPages, parseDate: DateParser): (r: Result<ScrapedList, Thrown>)
    ensures fetched.Err? ==> r == Err(fetched.error)
    ensures var films := LetterboxdMovies.ScrapeMoviesOverPages(posters, filmPage, None, LetterboxdMovies.DEFAULT_MAX_PAGES, 1, [], None);
      fetched.Ok? ==> (r.Ok? <==> films.Ok?) && (r.Ok? ==> r.value.movieIds == PresentIds(films.value))
    ensures r.Ok? ==> r.value.details.url == url && r.value.details.visibility == "public"
    ensures r.Ok? ==> r.value.owner == fetched.value.owner && r.value.details.letterboxdUsername == fetched.value.owner
    ensures r.Ok? ==> r.value.details.isRanked == (fetched.value.rankedItems > 0)
    ensures r.Ok? ==> r.value.details.publishDate == ParsedDate(fetched.value.published, parseDate)
    ensures r.Ok? && ParsedDate(fetched.value.updated, parseDate).None? ==> r.value.details.lastUpdated == r.value.details.publishDate
    ensures r.Ok? && ParsedDate(fetched.value.updated, parseDate).Some? ==> r.value.details.lastUpdated == ParsedDate(fetched.value.updated, parseDate)
    ensures r.Ok? ==> r.value.details.title == Trim(fetched.value.titleText) && r.value.details.description == Trim(fetched.value.descriptionText)
  {
    match fetched
    case Err(t) => Err(t)
    case Ok(p) =>
      var publishDate := ParsedDate(p.published, parseDate);
      var lastUpdated := if ParsedDate(p.updated, parseDate).Some? then ParsedDate(p.updated, parseDate) else publishDate;
      match LetterboxdMovies.ScrapeMoviesOverPages(posters, filmPage, None, LetterboxdMovies.DEFAULT_MAX_PAGES, 1, [], None)
      case Err(t) => Err(t)
      case Ok(films) =>
        var details := ListDetails(publishDate, lastUpdated, Trim(p.titleText), Trim(p.descriptionText),
                                   p.owner, url, p.rankedItems > 0, "public");
        Ok(ScrapedList(details, PresentIds(films), p.owner))
  }

  /** One `a.list-link` of a lists page: its `href`. */
  datatype ListLink = ListLink(href: Option<string>)

  /** What the lists walk needs to know about the site: the user, the
      user's lists pages (page `n` at index `n - 1`; pages past the end are
      empty), and how one list is scraped from its full URL. */
  datatype ListSite = ListSite(
    username: string,
    listsPages: seq<Result<seq<ListLink>, Thrown>>,
    scrapeList: string -> Result<ScrapedList, Thrown>)

  /** The site whose lists are scraped by `scrapeListByUrl`, given per list
      URL its page and its poster pages. */
  function SiteOf(username: string, listsPages: seq<Result<seq<ListLink>, Thrown>>,
                  listPage: string -> Result<ListPage, Thrown>, listPosters: string -> LetterboxdMovies.PosterPages,
                  filmPage: LetterboxdMovies.FilmPages, parseDate: DateParser): (site: ListSite)
    ensures site.username == username && site.listsPages == listsPages
    ensures forall url :: site.scrapeList(url) == ScrapeListByUrl(url, listPage(url), listPosters(url), filmPage, parseDate)
  {
    ListSite(username, listsPages, (url: string) => ScrapeListByUrl(url, listPage(url), listPosters(url), filmPage, parseDate))
  }

  function PageAt(site: ListSite, page: int): Result<seq<ListLink>, Thrown> {
    if 1 <= page <= |site.listsPages| then site.listsPages[page - 1] else Ok([])
  }

  function MissingUrlError(i: nat, username: string, page: int): Thrown {
    Raised(PlainError("URL data not found for list index " + NatString(i) + " on Letterboxd lists page "
                      + username + "/" + IntString(page)))
  }

  /** The list behind link `i` of a lists page, as handed to `processList`
      (without the owner): a link without a non-empty `href` throws. */
  function ListAt(site: ListSite, link: ListLink, i: nat, page: int): (r: Result<ScrapedList, Thrown>)
    ensures (link.href.None? || link.href == Some("")) ==> r == Err(MissingUrlError(i, site.username, page))
    ensures r.Ok? ==> r.value.owner.None?
    ensures link.href.Some? && link.href.value != "" ==> (r.Err? <==> site.scrapeList(LETTERBOXD_ORIGIN + link.href.value).Err?)
  {
    if link.href.None? || link.href.value == "" then Err(MissingUrlError(i, site.username, page))
    else
      var full := LETTERBOXD_ORIGIN + link.href.value;
      match site.scrapeList(full)
      case Err(t) => Err(t)
      case Ok(l) => Ok(l.(owner := None))
  }

  const LETTERBOXD_ORIGIN := "https://letterboxd.com"

  /** The outcome of the lists walk, and the lists handed to `processList`
      so far (in order, also when it throws). */
  datatype ListWalk = ListWalk(result: Result<nat, Thrown>, processed: seq<ScrapedList>)

  function Prepend(done: seq<ScrapedList>, w: ListWalk): ListWalk {
    ListWalk(w.result, done + w.processed)
  }

  /** The lists walk from link `i` of page `page` on, `count` lists having
      been handed over before: an empty page ends it with the count; each
      list is handed over in order; the first failure ends it. */
  function WalkLists(site: ListSite, page: int, i: nat, count: nat): (w: ListWalk)
    requires PageAt(site, page).Ok? ==> i <= |PageAt(site, page).value|
    decreases |site.listsPages| + 1 - page, if PageAt(site, page).Ok? then |PageAt(site, page).value| - i else 0
  {
    match PageAt(site, page)
    case Err(t) => ListWalk(Err(t), [])
    case Ok(links) =>
      if |links| == 0 then ListWalk(Ok(count), [])
      else if i == |links| then WalkLists(site, page + 1, 0, count)
      else match ListAt(site, links[i], i, page)
        case Err(t) => ListWalk(Err(t), [])
        case Ok(l) => Prepend([l], WalkLists(site, page, i + 1, count + 1))
  }

  /** One list handed over. */
  lemma WalkStepList(site: ListSite, page: int, links: seq<ListLink>, i: nat, count: nat, done: seq<ScrapedList>, l: ScrapedList)
    requires PageAt(site, page) == Ok(links) && i < |links|
    requires ListAt(site, links[i], i, page) == Ok(l)
    ensures Prepend(done + [l], WalkLists(site, page, i + 1, count + 1)) == Prepend(done, WalkLists(site, page, i, count))
  {
    var rest := WalkLists(site, page, i + 1, count + 1);
    assert WalkLists(site, page, i, count) == Prepend([l], rest);
    assert done + [l] + rest.processed == done + ([l] + rest.processed);
  }

  /** A page done: the walk goes on at the next page. */
  lemma WalkStepPage(site: ListSite, page: int, count: nat)
    requires PageAt(site, page).Ok? && |PageAt(site, page).value| > 0
    ensures WalkLists(site, page, |PageAt(site, page).value|, count) == WalkLists(site, page + 1, 0, count)
  {
  }

  /** `scrapeListsForUser`: the page loop (the source's tail recursion)
      around the loop over each page's lists. */
  method ScrapeListsForUser(site: ListSite, count0: nat, page0: int) returns (r: Result<nat, Thrown>, processed: seq<ScrapedList>)
    ensures ListWalk(r, processed) == WalkLists(site, page0, 0, count0)
  {
    var count: nat := count0;
    var page := page0;
    processed := [];
    while true
      invariant Prepend(processed, WalkLists(site, page, 0, count)) == WalkLists(site, page0, 0, count0)
      decreases |site.listsPages| + 1 - page
    {
      var fetched := PageAt(site, page);
      if fetched.Err? {
        r := Err(fetched.error);
        return;
      }
      var links := fetched.value;
      if |links| == 0 {
        r := Ok(count);
        return;
      }
      var failed;
      failed, processed := HandOverPage(site, page, links, count, processed);
      if failed.Some? {
        r := Err(failed.value);
        return;
      }
      count := count + |links|;
      page := page + 1;
    }
  }

  /** The loop over one page's lists: each is scraped and handed over in
      order, or the first failure is reported. */
  method HandOverPage(site: ListSite, page: int, links: seq<ListLink>, count: nat, done: seq<ScrapedList>)
    returns (failed: Option<Thrown>, processed: seq<ScrapedList>)
    requires PageAt(site, page) == Ok(links) && |links| > 0
    ensures failed.Some? ==> ListWalk(Err(failed.value), processed) == Prepend(done, WalkLists(site, page, 0, count))
    ensures failed.None? ==>
      Prepend(processed, WalkLists(site, page + 1, 0, count + |links|)) == Prepend(done, WalkLists(site, page, 0, count))
  {
    ghost var total := Prepend(done, WalkLists(site, page, 0, count));
    processed := done;
    var batchCount: nat := 0;
    var i := 0;
    while i < |links|
      invariant 0 <= i <= |links| && batchCount == i
      invariant Prepend(processed, WalkLists(site, page, i, count + batchCount)) == total
    {
      var list := ListAt(site, links[i], i, page);
      if list.Err? {
        assert WalkLists(site, page, i, count + batchCount) == ListWalk(Err(list.error), []);
        assert processed + [] == processed;
        return Some(list.error), processed;
      }
      var l := list.value;
      ghost var c2 := count + batchCount;
      WalkStepList(site, page, links, i, c2, processed, l);
      processed := processed + [l];
      batchCount := batchCount + 1;
      i := i + 1;
      assert count + batchCount == c2 + 1;
    }
    WalkStepPage(site, page, count + batchCount);
    failed := None;
  }

  /** A walk that ends normally counts exactly the lists it handed over. */
  lemma {:induction false} WalkCountsProcessed(site: ListSite, page: int, i: nat, count: nat)
    requires PageAt(site, page).Ok? ==> i <= |PageAt(site, page).value|
    ensures WalkLists(site, page, i, count).result.Ok? ==>
      WalkLists(site, page, i, count).result.value == count + |WalkLists(site, page, i, count).processed|
    decreases |site.listsPages| + 1 - page, if PageAt(site, page).Ok? then |PageAt(site, page).value| - i else 0
  {
    match PageAt(site, page)
    case Err(_) =>
    case Ok(links) =>
      if |links| == 0 {
      } else if i == |links| {
        WalkCountsProcessed(site, page + 1, 0, count);
      } else if ListAt(site, links[i], i, page).Ok? {
        WalkCountsProcessed(site, page, i + 1, count + 1);
      }
  }

  /** The walk hands over every list of every page before the first
      empty one, so with no failures it hands over as many lists as those
      pages have links. */
  function LinksBefore(site: ListSite, page: int): nat
    decreases |site.listsPages| + 1 - page
  {
    match PageAt(site, page)
    case Err(_) => 0
    case Ok(links) => if |links| == 0 then 0 else |links| + LinksBefore(site, page + 1)
  }

  lemma {:induction false} WalkHandsOverAllLinks(site: ListSite, page: int, i: nat, count: nat)
    requires PageAt(site, page).Ok? && i <= |PageAt(site, page).value|
    ensures var w := WalkLists(site, page, i, count);
      w.result.Ok? ==> |w.processed| == LinksBefore(site, page) - (if |PageAt(site, page).value| == 0 then 0 else i)
    decreases |site.listsPages| + 1 - page, |PageAt(site, page).value| - i
  {
    var links := PageAt(site, page).value;
    if |links| == 0 {
    } else if i == |links| {
      var next := PageAt(site, page + 1);
      if next.Ok? {
        WalkHandsOverAllLinks(site, page + 1, 0, count);
      }
    } else if ListAt(site, links[i], i, page).Ok? {
      WalkHandsOverAllLinks(site, page, i + 1, count + 1);
    }
  }
}
