/** The credits job of src/lib/managedSyncs/syncMoviesCredits.ts: for
    each movie still missing its credits, fetch the cast and crew from
    TMDB, add the roles, mark the movie synced and save it.

    TMDB, the role writers (`addCast`, `addCrew`) and the movies table's
    refusals are parameters bundled in a `CreditsSource`; the query for
    movies missing credits is a parameter of the job. */
module SyncMoviesCredits {
  import opened Wrappers
  import opened JsText
  import opened Failures
  import opened DbTypes
  import opened SyncRepo
  import opened MovieStore

  /** One cast or crew entry of TMDB's credits for a movie. */
  datatype Credit = Credit(personId: int, role: string)

  /** TMDB's credits for a movie. */
  datatype Credits = Credits(cast: seq<Credit>, crew: seq<Credit>)

  /** A role row written by `addCast` or `addCrew`. */
  datatype Role = Role(personId: int, movieId: int, role: string)

  /** What the job reads and where it can fail. The role writers give one
      entry per credit, absent where no row was written. */
  datatype CreditsSource = CreditsSource(
    movieCredits: int -> Result<Credits, Thrown>,
    addCast: (seq<Credit>, int) -> Result<seq<Option<Role>>, Thrown>,
    addCrew: (seq<Credit>, int) -> Result<seq<Option<Role>>, Thrown>,
    movieFault: int -> Option<Thrown>)

  /** The roles that were written, in order. */
  function Present(roles: seq<Option<Role>>): (kept: seq<Role>)
    ensures |kept| <= |roles|
    ensures forall x :: x in kept <==> Some(x) in roles
  {
    if roles == [] then []
    else
      var last := roles[|roles| - 1];
      var before := roles[..|roles| - 1];
      assert forall o :: o in roles <==> o in before || o == last;
      Present(before) + (if last.Some? then [last.value] else [])
  }

  /** `roles.forEach(c => c ? synced.push(c) : null)`. */
  method KeepPresent(roles: seq<Option<Role>>) returns (kept: seq<Role>)
    ensures kept == Present(roles)
  {
    kept := [];
    var i := 0;
    while i < |roles|
      invariant 0 <= i <= |roles|
      invariant kept == Present(roles[..i])
    {
      assert roles[..i + 1][..i] == roles[..i];
      if roles[i].Some? {
        kept := kept + [roles[i].value];
      }
      i := i + 1;
    }
    assert roles[..i] == roles;
  }

  /** A role writer's outcome once its failure has been logged and
      swallowed: the written roles, or none. */
  function Swallowed(added: Result<seq<Option<Role>>, Thrown>): seq<Role> {
    if added.Ok? then Present(added.value) else []
  }

  /** What `syncOneMovieCredits` returns. */
  datatype OneCredits = OneCredits(syncedCastRoles: seq<Role>, syncedCrewRoles: seq<Role>)

  /** The outcome of `syncOneMovieCredits` for a movie id. */
  function MovieCredits(id: int, src: CreditsSource): Result<OneCredits, Thrown> {
    match src.movieCredits(id)
    case Err(t) => Err(t)
    case Ok(credits) =>
      Ok(OneCredits(Swallowed(src.addCast(credits.cast, id)), Swallowed(src.addCrew(credits.crew, id))))
  }

  /** Only the TMDB request can make the call fail; a failing role writer
      costs its own roles only, and every role returned is one a writer
      reported. */
  lemma CreditFailuresSwallowed(id: int, src: CreditsSource)
    ensures MovieCredits(id, src).Err? <==> src.movieCredits(id).Err?
    ensures src.movieCredits(id).Ok? ==>
      var credits := src.movieCredits(id).value;
      var one := MovieCredits(id, src).value;
      && (src.addCast(credits.cast, id).Err? ==> one.syncedCastRoles == [])
      && (src.addCrew(credits.crew, id).Err? ==> one.syncedCrewRoles == [])
      && (src.addCast(credits.cast, id).Ok? ==>
            forall x :: x in one.syncedCastRoles <==> Some(x) in src.addCast(credits.cast, id).value)
      && (src.addCrew(credits.crew, id).Ok? ==>
            forall x :: x in one.syncedCrewRoles <==> Some(x) in src.addCrew(credits.crew, id).value)
  {
  }

  /** `syncOneMovieCredits`: the request's failure propagates; each role
      writer's does not. */
  method SyncOneMovieCredits(movie: Movie, src: CreditsSource) returns (r: Result<OneCredits, Thrown>)
    ensures r == MovieCredits(movie.id, src)
  {
    var credits := src.movieCredits(movie.id);
    if credits.Err? {
      return Err(credits.error);
    }
    var syncedCastRoles: seq<Role> := [];
    var syncedCrewRoles: seq<Role> := [];
    var castRoles := src.addCast(credits.value.cast, movie.id);
    if castRoles.Ok? {
      syncedCastRoles := KeepPresent(castRoles.value);
    }
    var crewRoles := src.addCrew(credits.value.crew, movie.id);
    if crewRoles.Ok? {
      syncedCrewRoles := KeepPresent(crewRoles.value);
    }
    r := Ok(OneCredits(syncedCastRoles, syncedCrewRoles));
  }

  /** One movie's turn in the loop: its credits, then the save of the
      movie marked synced, whose refusal propagates. */
  function CreditsStep(id: int, src: CreditsSource): Result<OneCredits, Thrown> {
    match MovieCredits(id, src)
    case Err(t) => Err(t)
    case Ok(one) => if src.movieFault(id).Some? then Err(src.movieFault(id).value) else Ok(one)
  }

  /** The loop over the first `i` movies: all cast roles and all crew
      roles in movie order, or the first failure. */
  function CreditsWalk(movies: seq<Movie>, i: nat, src: CreditsSource): Result<OneCredits, Thrown>
    requires i <= |movies|
  {
    if i == 0 then Ok(OneCredits([], []))
    else
      match CreditsWalk(movies, i - 1, src)
      case Err(t) => Err(t)
      case Ok(acc) =>
        match CreditsStep(movies[i - 1].id, src)
        case Err(t) => Err(t)
        case Ok(one) => Ok(OneCredits(acc.syncedCastRoles + one.syncedCastRoles, acc.syncedCrewRoles + one.syncedCrewRoles))
  }

  /** The loop succeeds iff every movie's request and save succeed. */
  lemma {:induction false} CreditsWalkOk(movies: seq<Movie>, i: nat, src: CreditsSource)
    requires i <= |movies|
    ensures CreditsWalk(movies, i, src).Ok? <==> forall k :: 0 <= k < i ==> CreditsStep(movies[k].id, src).Ok?
  {
    if i > 0 {
      CreditsWalkOk(movies, i - 1, src);
    }
  }

  /** A failed movie ends the loop: later movies change nothing. */
  lemma {:induction false} CreditsErrorSticks(movies: seq<Movie>, i: nat, j: nat, src: CreditsSource)
    requires i <= j <= |movies|
    requires CreditsWalk(movies, i, src).Err?
    ensures CreditsWalk(movies, j, src) == CreditsWalk(movies, i, src)
    decreases j - i
  {
    if j > i {
      CreditsErrorSticks(movies, i, j - 1, src);
    }
  }

  /** A movie whose credits are marked synced, on the entity and in the
      movies table. */
  predicate MarkedSynced(catalog: MovieCatalog, m: Movie)
    reads catalog, m
  {
    m.syncedCredits && m.id in catalog.movies && catalog.movies[m.id].syncedCredits
  }

  /** The catalog after the loop over `missing`, against the tables it
      started from: every movie marked when the loop succeeded, the
      collections table untouched, and no movie row changed outside
      the loop's movies. */
  predicate CreditsEffect(catalog: MovieCatalog, missing: seq<Movie>, src: CreditsSource,
                          collections0: map<int, Collection>, movies0: map<int, MovieRow>)
    reads catalog, set m | m in missing
  {
    && (CreditsWalk(missing, |missing|, src).Ok? ==> forall k :: 0 <= k < |missing| ==> MarkedSynced(catalog, missing[k]))
    && catalog.collections == collections0
    && KeptOutside(movies0, catalog.movies, MovieIds(missing))
  }

  /** One turn of the loop on the `i`-th movie. Against the tables the
      loop started from, the movies table changes only under the first
      `i + 1` movies once it changed only under the first `i`, and the
      collections table stays as it was. */
  method CreditsTurn(catalog: MovieCatalog, missing: seq<Movie>, i: nat, src: CreditsSource,
                     ghost collections0: map<int, Collection>, ghost movies0: map<int, MovieRow>)
    returns (one: Result<OneCredits, Thrown>)
    requires i < |missing|
    requires catalog.collections == collections0
    requires KeptOutside(movies0, catalog.movies, MovieIds(missing[..i]))
    modifies catalog, missing[i]
    ensures one == CreditsStep(missing[i].id, src)
    ensures one.Ok? ==> MarkedSynced(catalog, missing[i])
    ensures forall k :: 0 <= k < |missing| && old(MarkedSynced(catalog, missing[k])) ==> MarkedSynced(catalog, missing[k])
    ensures catalog.collections == collections0
    ensures KeptOutside(movies0, catalog.movies, MovieIds(missing[..i + 1]))
  {
    MovieIdsStep(missing, i);
    var movie := missing[i];
    one := SyncOneMovieCredits(movie, src);
    if one.Err? {
      KeptOutsideChain(movies0, catalog.movies, catalog.movies, MovieIds(missing[..i]), {}, MovieIds(missing[..i + 1]));
      return;
    }
    ghost var moviesBefore := catalog.movies;
    movie.syncedCredits := true;
    var failed := catalog.SaveMovie(movie, src.movieFault(movie.id));
    KeptOutsideChain(movies0, moviesBefore, catalog.movies,
                     MovieIds(missing[..i]), {missing[i].id}, MovieIds(missing[..i + 1]));
    if failed.Some? {
      one := Err(failed.value);
    }
  }

  /** The loop of `syncAllMoviesCredits`: the movies table changes only
      under the loop's movies, the collections table not at all. */
  method CreditsLoop(catalog: MovieCatalog, missing: seq<Movie>, src: CreditsSource)
    returns (r: Result<OneCredits, Thrown>)
    modifies catalog, set m | m in missing
    ensures r == CreditsWalk(missing, |missing|, src)
    ensures CreditsEffect(catalog, missing, src, old(catalog.collections), old(catalog.movies))
  {
    ghost var collections0 := catalog.collections;
    ghost var movies0 := catalog.movies;
    var allCast: seq<Role> := [];
    var allCrew: seq<Role> := [];
    var i := 0;
    while i < |missing|
      invariant 0 <= i <= |missing|
      invariant CreditsWalk(missing, i, src) == Ok(OneCredits(allCast, allCrew))
      invariant forall k :: 0 <= k < i ==> MarkedSynced(catalog, missing[k])
      invariant catalog.collections == collections0
      invariant KeptOutside(movies0, catalog.movies, MovieIds(missing[..i]))
    {
      var one := CreditsTurn(catalog, missing, i, src, collections0, movies0);
      if one.Err? {
        CreditsErrorSticks(missing, i + 1, |missing|, src);
        MovieIdsPrefix(missing, i + 1);
        KeptOutsideChain(movies0, catalog.movies, catalog.movies, MovieIds(missing[..i + 1]), {}, MovieIds(missing));
        return Err(one.error);
      }
      allCast := allCast + one.value.syncedCastRoles;
      allCrew := allCrew + one.value.syncedCrewRoles;
      i := i + 1;
    }
    assert missing[..i] == missing;
    r := Ok(OneCredits(allCast, allCrew));
  }

  /** The default number of movies a run asks for. */
  const DEFAULT_CREDITS_LIMIT := 5000

  /** What `syncAllMoviesCredits` returns. */
  datatype CreditsResult = CreditsResult(cast: seq<Role>, crew: seq<Role>, syncedCount: nat)

  /** The field values of the movies, in order. */
  function Rows(movies: seq<Movie>): (rows: seq<MovieRow>)
    reads set m | m in movies
    ensures |rows| == |movies|
    ensures forall k :: 0 <= k < |movies| ==> rows[k] == movies[k].Row()
  {
    seq(|movies|, k reads set m | m in movies requires 0 <= k < |movies| => movies[k].Row())
  }

  /** The message of a run that synced no role; `describe` stands for
      `JSON.stringify` of the movies. */
  function NoCreditsMessage(count: nat, described: string): string {
    "Attempted to sync " + IntString(count) + " movies, but 0 credits were synced. " + described
  }

  /** What `syncAllMoviesCredits` does once its sync is queued and the
      movies missing credits are known: no movies returns 0 and leaves
      the sync as queued; otherwise the loop runs, and the sync is ended
      complete, with the number of roles, only when the loop succeeded
      and synced at least one role. */
  method CreditsRun(repo: SyncRepository, catalog: MovieCatalog, sync: Sync, missing: seq<Movie>,
                    src: CreditsSource, describe: seq<MovieRow> -> string, endNow: int)
    returns (r: Result<CreditsResult, Thrown>)
    requires repo.Valid() && sync.id.Some?
    modifies repo, sync, catalog, set m | m in missing
    ensures repo.Valid() && sync.id == old(sync.id)
    ensures var walk := CreditsWalk(missing, |missing|, src);
      && (|missing| == 0 ==> r == Ok(CreditsResult([], [], 0)) && sync.Row() == old(sync.Row()) && repo.rows == old(repo.rows))
      && (|missing| > 0 && walk.Err? ==> r == Err(walk.error) && sync.Row() == old(sync.Row()) && repo.rows == old(repo.rows))
      && (|missing| > 0 && walk.Ok? ==>
            var total := |walk.value.syncedCastRoles| + |walk.value.syncedCrewRoles|;
            && (total > 0 ==> (r == Ok(CreditsResult(walk.value.syncedCastRoles, walk.value.syncedCrewRoles, total))
                               && sync.Row() == EndedRow(old(sync.Row()), CompleteOptions(total, None), endNow)
                               && repo.rows == old(repo.rows)[sync.id.value := sync.Row()]))
            && (total == 0 ==> (r == Err(Raised(PlainError(NoCreditsMessage(|missing|, describe(Rows(missing))))))
                                && sync.Row() == old(sync.Row()) && repo.rows == old(repo.rows))))
    ensures CreditsEffect(catalog, missing, src, old(catalog.collections), old(catalog.movies))
  {
    if |missing| == 0 {
      return Ok(CreditsResult([], [], 0));
    }
    var walk := CreditsLoop(catalog, missing, src);
    if walk.Err? {
      return Err(walk.error);
    }
    var numSynced := |walk.value.syncedCastRoles| + |walk.value.syncedCrewRoles|;
    if numSynced > 0 {
      repo.EndSync(sync, CompleteOptions(numSynced, None), endNow);
      r := Ok(CreditsResult(walk.value.syncedCastRoles, walk.value.syncedCrewRoles, numSynced));
    } else {
      var message := NoCreditsMessage(|missing|, describe(Rows(missing)));
      r := Err(Raised(PlainError(message)));
    }
  }

  /** `syncAllMoviesCredits`. `missingCredits(limit)` is the movies
      repository's query for movies missing credits. The sync is queued
      with its type; it is ended complete, with the number of roles,
      only when the loop succeeded and synced at least one role. */
  method SyncAllMoviesCredits(repo: SyncRepository, catalog: MovieCatalog, missingCredits: int -> seq<Movie>,
                              limit: Option<int>, src: CreditsSource, describe: seq<MovieRow> -> string,
                              now: int, endNow: int)
    returns (r: Result<CreditsResult, Thrown>, sync: Sync)
    requires repo.Valid()
    modifies repo, catalog, set m | m in missingCredits(limit.GetOr(DEFAULT_CREDITS_LIMIT))
    ensures repo.Valid() && fresh(sync)
    ensures sync.id.Some? && sync.id.value !in old(repo.rows)
    ensures repo.rows == old(repo.rows)[sync.id.value := sync.Row()]
    ensures var missing := missingCredits(limit.GetOr(DEFAULT_CREDITS_LIMIT));
      var walk := CreditsWalk(missing, |missing|, src);
      var queued := QueuedRow(MoviesCredits, sync.id.value);
      && (|missing| == 0 ==> r == Ok(CreditsResult([], [], 0)) && sync.Row() == queued)
      && (|missing| > 0 && walk.Err? ==> r == Err(walk.error) && sync.Row() == queued)
      && (|missing| > 0 && walk.Ok? ==>
            var total := |walk.value.syncedCastRoles| + |walk.value.syncedCrewRoles|;
            && (total > 0 ==> (r == Ok(CreditsResult(walk.value.syncedCastRoles, walk.value.syncedCrewRoles, total))
                               && sync.Row() == EndedRow(queued, CompleteOptions(total, None), endNow)))
            && (total == 0 ==> (r == Err(Raised(PlainError(NoCreditsMessage(|missing|, describe(Rows(missing))))))
                                && sync.Row() == queued)))
    ensures CreditsEffect(catalog, missingCredits(limit.GetOr(DEFAULT_CREDITS_LIMIT)), src,
                          old(catalog.collections), old(catalog.movies))
  {
    sync := repo.QueueTyped(MoviesCredits, now);
    var moviesWithMissingCredits := missingCredits(limit.GetOr(DEFAULT_CREDITS_LIMIT));
    r := CreditsRun(repo, catalog, sync, moviesWithMissingCredits, src, describe, endNow);
  }
}
