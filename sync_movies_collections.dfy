/** The collections job of src/lib/managedSyncs/syncMoviesCollections.ts:
    for each movie still missing its collection, ask TMDB which
    collection it belongs to, save that collection, link it, and mark the
    movie synced; run through `manageAction`.

    The TMDB answers and the two tables' refusals are parameters bundled
    in a `CollectionsSource`; the list of movies missing collections (a
    movies-repository query) is a parameter of the job. */
module SyncMoviesCollections {
  import opened Wrappers
  import opened JsText
  import opened Seqs
  import opened Failures
  import opened DbTypes
  import opened SyncRepo
  import opened MovieStore

  /** TMDB's `belongs_to_collection` object: each key may be absent. */
  datatype CollectionInfo = CollectionInfo(
    id: Option<int>,
    name: Option<string>,
    posterPath: Option<string>,
    backdropPath: Option<string>)

  /** `checkMovieForCollection`: a collection only for an object with a
      positive id and a non-empty name; the two paths are kept exactly
      as present (absent stays absent). A missing object gives none. */
  function CheckMovieForCollection(c: Option<CollectionInfo>): (r: Option<Collection>)
    ensures c.None? ==> r.None?
    ensures r.Some? <==> c.Some? && c.value.id.Some? && c.value.id.value > 0
                         && c.value.name.Some? && |c.value.name.value| > 0
    ensures r.Some? ==> r.value.id == c.value.id.value && r.value.name == c.value.name.value
    ensures r.Some? ==> r.value.posterPath == c.value.posterPath && r.value.backdropPath == c.value.backdropPath
  {
    if c.None? then None
    else
      var id := c.value.id.GetOr(0);
      var name := c.value.name.GetOr("");
      if id > 0 && |name| > 0 then Some(Collection(id, name, c.value.posterPath, c.value.backdropPath))
      else None
  }

  /** What the job reads and where it can fail: TMDB's collection object
      for a movie id (or the request's failure), and the refusals of the
      collections and movies tables. */
  datatype CollectionsSource = CollectionsSource(
    belongsTo: int -> Result<Option<CollectionInfo>, Thrown>,
    collectionFault: Collection -> Option<Thrown>,
    movieFault: int -> Option<Thrown>)

  /** Why `syncOneMovieCollections` fails for a movie, if it does: the
      TMDB request, then saving the found collection, then saving the
      movie. */
  function CollectionsFailure(id: int, src: CollectionsSource): Option<Thrown> {
    match src.belongsTo(id)
    case Err(t) => Some(t)
    case Ok(info) =>
      var c := CheckMovieForCollection(info);
      if c.Some? && src.collectionFault(c.value).Some? then src.collectionFault(c.value)
      else src.movieFault(id)
  }

  /** The collection `syncOneMovieCollections` writes, if it writes one. */
  function SavedCollection(id: int, src: CollectionsSource): Option<Collection> {
    match src.belongsTo(id)
    case Err(_) => None
    case Ok(info) =>
      var c := CheckMovieForCollection(info);
      if c.Some? && src.collectionFault(c.value).None? then c else None
  }

  /** The movie's fields once `syncOneMovieCollections` has returned or
      thrown. */
  function UpdatedMovie(row: MovieRow, src: CollectionsSource): MovieRow {
    match src.belongsTo(row.id)
    case Err(_) => row
    case Ok(info) =>
      var c := CheckMovieForCollection(info);
      if c.None? then row.(syncedCollections := true)
      else if src.collectionFault(c.value).Some? then row
      else row.(collections := [c.value], syncedCollections := true)
  }

  /** A call that succeeds marks the movie synced; it links the found
      collection and nothing else, keeps the old links when there is no
      collection, and never touches the id, title or credits flag. */
  lemma UpdatedMovieRules(row: MovieRow, src: CollectionsSource)
    ensures var u := UpdatedMovie(row, src);
      && u.id == row.id && u.title == row.title && u.syncedCredits == row.syncedCredits
      && (CollectionsFailure(row.id, src).None? ==> u.syncedCollections)
      && (SavedCollection(row.id, src).Some? ==> u.collections == [SavedCollection(row.id, src).value])
      && (SavedCollection(row.id, src).None? ==> u.collections == row.collections)
  {
  }

  /** The collections table after an optional write. */
  function WithCollection(table: map<int, Collection>, c: Option<Collection>): map<int, Collection> {
    if c.Some? then table[c.value.id := c.value] else table
  }

  /** The collections table once `syncOneMovieCollections` has run on
      each of `movies` in turn. */
  function CollectionsAfter(table: map<int, Collection>, movies: seq<Movie>, src: CollectionsSource)
    : map<int, Collection>
    decreases |movies|
  {
    if |movies| == 0 then table
    else
      WithCollection(CollectionsAfter(table, movies[..|movies| - 1], src), SavedCollection(movies[|movies| - 1].id, src))
  }

  /** Running the calls only adds to the collections table: every old id
      stays, every collection a call saved is there under its id, every
      entry is the old one or one some call saved, and a table whose
      entries sit under their own ids keeps that shape. */
  lemma {:induction false} CollectionsAfterContents(table: map<int, Collection>, movies: seq<Movie>,
                                                    src: CollectionsSource)
    ensures var after := CollectionsAfter(table, movies, src);
      && table.Keys <= after.Keys
      && (forall k :: 0 <= k < |movies| && SavedCollection(movies[k].id, src).Some?
                      ==> SavedCollection(movies[k].id, src).value.id in after)
      && (forall cid :: cid in after ==> (cid in table && after[cid] == table[cid])
                                         || exists k :: 0 <= k < |movies| && SavedCollection(movies[k].id, src) == Some(after[cid]))
      && ((forall cid :: cid in table ==> table[cid].id == cid) ==> forall cid :: cid in after ==> after[cid].id == cid)
    decreases |movies|
  {
    if |movies| > 0 {
      var n := |movies| - 1;
      var prefix := movies[..n];
      CollectionsAfterContents(table, prefix, src);
      var before := CollectionsAfter(table, prefix, src);
      var after := CollectionsAfter(table, movies, src);
      var last := SavedCollection(movies[n].id, src);
      assert after == WithCollection(before, last);
      forall cid | cid in after
        ensures (cid in table && after[cid] == table[cid])
                || exists k :: 0 <= k < |movies| && SavedCollection(movies[k].id, src) == Some(after[cid])
      {
        if last.Some? && last.value.id == cid {
          assert SavedCollection(movies[n].id, src) == Some(after[cid]);
        } else if !(cid in table && before[cid] == table[cid]) {
          var k :| 0 <= k < |prefix| && SavedCollection(prefix[k].id, src) == Some(before[cid]);
          assert SavedCollection(movies[k].id, src) == Some(after[cid]);
        }
      }
    }
  }

  /** One more call adds its saved collection, if any, to the table. */
  lemma CollectionsAfterStep(table: map<int, Collection>, movies: seq<Movie>, i: nat, src: CollectionsSource)
    requires i < |movies|
    ensures CollectionsAfter(table, movies[..i + 1], src)
         == WithCollection(CollectionsAfter(table, movies[..i], src), SavedCollection(movies[i].id, src))
  {
    assert movies[..i + 1][..i] == movies[..i];
  }

  /** What `syncOneMovieCollections` returns. */
  datatype OneCollectionsResult = OneCollectionsResult(movie: Movie, syncedCollections: seq<Collection>)

  /** `syncOneMovieCollections`. */
  method SyncOneMovieCollections(catalog: MovieCatalog, movie: Movie, src: CollectionsSource)
    returns (r: Result<OneCollectionsResult, Thrown>)
    modifies catalog, movie
    ensures movie.Row() == UpdatedMovie(old(movie.Row()), src)
    ensures r.Err? <==> CollectionsFailure(movie.id, src).Some?
    ensures r.Err? ==> r.error == CollectionsFailure(movie.id, src).value
    ensures r.Ok? ==> r.value == OneCollectionsResult(movie, [])
    ensures catalog.collections == WithCollection(old(catalog.collections), SavedCollection(movie.id, src))
    ensures r.Ok? ==> catalog.movies == old(catalog.movies)[movie.id := movie.Row()]
    ensures r.Err? ==> catalog.movies == old(catalog.movies)
  {
    var tmdbMovie := src.belongsTo(movie.id);
    if tmdbMovie.Err? {
      return Err(tmdbMovie.error);
    }
    var c := CheckMovieForCollection(tmdbMovie.value);
    if c.Some? {
      var failed := catalog.SaveCollection(c.value, src.collectionFault(c.value));
      if failed.Some? {
        return Err(failed.value);
      }
      movie.collections := [c.value];
    }
    movie.syncedCollections := true;
    var failed := catalog.SaveMovie(movie, src.movieFault(movie.id));
    if failed.Some? {
      return Err(failed.value);
    }
    r := Ok(OneCollectionsResult(movie, []));
  }

  /** How many of the missing movies a run handles: all of them unless
      `limit` is truthy, then at most `limit` (none when it is negative). */
  function ToSync(missingCount: nat, limit: Option<int>): (n: nat)
    ensures n <= missingCount
    ensures limit.None? || limit.value == 0 ==> n == missingCount
    ensures limit.Some? && limit.value > 0 ==> n == Min(missingCount, limit.value)
    ensures limit.Some? && limit.value < 0 ==> n == 0
  {
    var m := if limit.Some? && limit.value != 0 then Min(missingCount, limit.value) else missingCount;
    if m < 0 then 0 else m
  }

  /** `${error}` for a thrown value: an `Error`'s message, a string as is. */
  function ThrownText(t: Thrown): string {
    match t
    case Raised(e) => e.message
    case RaisedString(s) => s
    case RaisedOther => "[object Object]"
  }

  /** The message a failed movie ends the job with. */
  function CollectionsMessage(id: int, t: Thrown): (m: string)
    ensures m != ""
  {
    "syncMoviesCollections error during movie ID: " + IntString(id) + " -- " + ThrownText(t)
  }

  /** The first of the first `n` movies whose call fails, if any. */
  function FirstFailing(movies: seq<Movie>, n: nat, src: CollectionsSource): (r: Option<nat>)
    requires n <= |movies|
    ensures r.Some? ==> r.value < n && CollectionsFailure(movies[r.value].id, src).Some?
    ensures r.Some? ==> forall k :: 0 <= k < r.value ==> CollectionsFailure(movies[k].id, src).None?
    ensures r.None? <==> forall k :: 0 <= k < n ==> CollectionsFailure(movies[k].id, src).None?
  {
    if n == 0 then None
    else
      var before := FirstFailing(movies, n - 1, src);
      if before.Some? then before
      else if CollectionsFailure(movies[n - 1].id, src).Some? then Some(n - 1)
      else None
  }

  /** What the loop over the first `n` movies ends with: those movies,
      in order, or the first failure as an `Error` naming the movie. */
  function LoopOutcome(missing: seq<Movie>, n: nat, src: CollectionsSource): Result<seq<Movie>, Thrown>
    requires n <= |missing|
  {
    match FirstFailing(missing, n, src)
    case None => Ok(missing[..n])
    case Some(i) =>
      Err(Raised(PlainError(CollectionsMessage(missing[i].id, CollectionsFailure(missing[i].id, src).value))))
  }

  /** The action's outcome: the handled movies and their count, or the
      first failure as an `Error` naming the movie. */
  function CollectionsOutcome(missing: seq<Movie>, limit: Option<int>, src: CollectionsSource)
    : (r: Result<ActionResult<seq<Movie>>, Thrown>)
    ensures r.Ok? ==> r.value.value == missing[..ToSync(|missing|, limit)]
                      && r.value.syncedCount == ToSync(|missing|, limit)
                      && r.value.secondaryId.None?
  {
    if |missing| == 0 then Ok(ActionResult([], 0, None))
    else
      match LoopOutcome(missing, ToSync(|missing|, limit), src)
      case Ok(synced) => Ok(ActionResult(synced, |synced|, None))
      case Err(t) => Err(t)
  }

  /** A failed action names a handled movie whose call failed, with that
      call's error. */
  lemma CollectionsFailureNamed(missing: seq<Movie>, limit: Option<int>, src: CollectionsSource)
    ensures var r := CollectionsOutcome(missing, limit, src);
      r.Err? ==> exists i :: (0 <= i < ToSync(|missing|, limit)
                 && CollectionsFailure(missing[i].id, src).Some?
                 && r.error == Raised(PlainError(CollectionsMessage(missing[i].id, CollectionsFailure(missing[i].id, src).value))))
  {
    var r := CollectionsOutcome(missing, limit, src);
    if r.Err? {
      var i := FirstFailing(missing, ToSync(|missing|, limit), src).value;
      assert 0 <= i < ToSync(|missing|, limit);
    }
  }

  /** How many of the first `n` movies were saved before the loop ended. */
  function Handled(missing: seq<Movie>, n: nat, src: CollectionsSource): nat
    requires n <= |missing|
  {
    var first := FirstFailing(missing, n, src);
    if first.Some? then first.value else n
  }

  /** How many movies' calls ran: the handled ones and, when the loop
      fails, the failing one. */
  function Attempted(missing: seq<Movie>, n: nat, src: CollectionsSource): (a: nat)
    requires n <= |missing|
    ensures Handled(missing, n, src) <= a <= n
  {
    var first := FirstFailing(missing, n, src);
    if first.Some? then first.value + 1 else n
  }

  /** A movie marked as having its collections synced, both on the
      entity and in the movies table. */
  predicate MarkedSynced(catalog: MovieCatalog, m: Movie)
    reads catalog, m
  {
    m.syncedCollections && m.id in catalog.movies && catalog.movies[m.id].syncedCollections
  }

  /** The catalog's two tables once the calls have run on the first
      `attempted` movies, against the tables they started from: the
      collections table holds what those calls saved, and no movie row
      changed outside those movies. */
  predicate TablesAfter(collections: map<int, Collection>, movies: map<int, MovieRow>,
                        missing: seq<Movie>, attempted: nat, src: CollectionsSource,
                        collections0: map<int, Collection>, movies0: map<int, MovieRow>)
    requires attempted <= |missing|
  {
    && collections == CollectionsAfter(collections0, missing[..attempted], src)
    && KeptOutside(movies0, movies, MovieIds(missing[..attempted]))
  }

  /** One turn of the loop: `syncOneMovieCollections` on the `i`-th
      movie, which keeps the earlier movies marked, marks this one when
      the call succeeds, and carries the tables from the first `i` movies
      to the first `i + 1`. */
  method CollectionsTurn(catalog: MovieCatalog, missing: seq<Movie>, i: nat, src: CollectionsSource,
                         ghost collections0: map<int, Collection>, ghost movies0: map<int, MovieRow>)
    returns (one: Result<OneCollectionsResult, Thrown>)
    requires i < |missing|
    requires TablesAfter(catalog.collections, catalog.movies, missing, i, src, collections0, movies0)
    requires forall k :: 0 <= k < i ==> MarkedSynced(catalog, missing[k])
    modifies catalog, missing[i]
    ensures one.Err? <==> CollectionsFailure(missing[i].id, src).Some?
    ensures one.Err? ==> one.error == CollectionsFailure(missing[i].id, src).value
    ensures one.Ok? ==> one.value.movie == missing[i]
    ensures one.Ok? ==> MarkedSynced(catalog, missing[i])
    ensures forall k :: 0 <= k < |missing| && old(MarkedSynced(catalog, missing[k])) ==> MarkedSynced(catalog, missing[k])
    ensures forall k :: 0 <= k < i ==> MarkedSynced(catalog, missing[k])
    ensures TablesAfter(catalog.collections, catalog.movies, missing, i + 1, src, collections0, movies0)
  {
    ghost var before := missing[i].Row();
    ghost var moviesBefore := catalog.movies;
    one := SyncOneMovieCollections(catalog, missing[i], src);
    UpdatedMovieRules(before, src);
    CollectionsAfterStep(collections0, missing, i, src);
    MovieIdsStep(missing, i);
    KeptOutsideChain(movies0, moviesBefore, catalog.movies,
                     MovieIds(missing[..i]), {missing[i].id}, MovieIds(missing[..i + 1]));
  }

  /** The first failing movie ends the loop with its message, after
      exactly the movies before it and with its own call run. */
  lemma FailureEndsLoop(missing: seq<Movie>, n: nat, src: CollectionsSource, i: nat)
    requires i < n <= |missing|
    requires FirstFailing(missing, i, src).None? && CollectionsFailure(missing[i].id, src).Some?
    ensures Handled(missing, n, src) == i && Attempted(missing, n, src) == i + 1
    ensures LoopOutcome(missing, n, src)
      == Err(Raised(PlainError(CollectionsMessage(missing[i].id, CollectionsFailure(missing[i].id, src).value))))
  {
    FirstFailingAt(missing, src, i, n);
  }

  /** The first failure among the first `n` movies is the one at `i` when
      none before `i` fails and the one at `i` does. */
  lemma {:induction false} FirstFailingAt(movies: seq<Movie>, src: CollectionsSource, i: nat, n: nat)
    requires i < n <= |movies|
    requires FirstFailing(movies, i, src).None? && CollectionsFailure(movies[i].id, src).Some?
    ensures FirstFailing(movies, n, src) == Some(i)
  {
    if n > i + 1 {
      FirstFailingAt(movies, src, i, n - 1);
    }
  }

  /** `syncAllMoviesCollections`'s loop over the first `n` missing movies:
      each is synced in turn, and the first failure ends the loop. */
  method CollectionsLoop(catalog: MovieCatalog, missing: seq<Movie>, n: nat, src: CollectionsSource)
    returns (r: Result<seq<Movie>, Thrown>)
    requires n <= |missing|
    modifies catalog, set m | m in missing
    ensures r == LoopOutcome(missing, n, src)
    ensures forall k :: 0 <= k < Handled(missing, n, src) ==> MarkedSynced(catalog, missing[k])
    ensures TablesAfter(catalog.collections, catalog.movies, missing, Attempted(missing, n, src), src,
                        old(catalog.collections), old(catalog.movies))
  {
    ghost var collections0 := catalog.collections;
    ghost var movies0 := catalog.movies;
    var synced: seq<Movie> := [];
    var i := 0;
    while i < n
      invariant 0 <= i <= n
      invariant synced == missing[..i]
      invariant FirstFailing(missing, i, src).None?
      invariant forall k :: 0 <= k < i ==> MarkedSynced(catalog, missing[k])
      invariant TablesAfter(catalog.collections, catalog.movies, missing, i, src, collections0, movies0)
    {
      var one := CollectionsTurn(catalog, missing, i, src, collections0, movies0);
      if one.Err? {
        FailureEndsLoop(missing, n, src, i);
        return Err(Raised(PlainError(CollectionsMessage(missing[i].id, one.error))));
      }
      synced := synced + [one.value.movie];
      i := i + 1;
    }
    r := Ok(synced);
  }

  /** The action `syncAllMoviesCollections` hands to `manageAction`: no
      movies is an empty success; otherwise the loop over the first
      `ToSync` of them. */
  method CollectionsAction(catalog: MovieCatalog, missing: seq<Movie>, limit: Option<int>, src: CollectionsSource)
    returns (outcome: Result<ActionResult<seq<Movie>>, Thrown>)
    modifies catalog, set m | m in missing
    ensures outcome == CollectionsOutcome(missing, limit, src)
    ensures forall k :: 0 <= k < Handled(missing, ToSync(|missing|, limit), src) ==> MarkedSynced(catalog, missing[k])
    ensures TablesAfter(catalog.collections, catalog.movies, missing, Attempted(missing, ToSync(|missing|, limit), src),
                        src, old(catalog.collections), old(catalog.movies))
  {
    if |missing| == 0 {
      return Ok(ActionResult([], 0, None));
    }
    var maxToSync := ToSync(|missing|, limit);
    var synced := CollectionsLoop(catalog, missing, maxToSync, src);
    if synced.Err? {
      return Err(synced.error);
    }
    outcome := Ok(ActionResult(synced.value, |synced.value|, None));
  }

  /** `syncAllMoviesCollections`: the action between `manageAction`'s
      start and end of one collections sync. */
  method SyncAllMoviesCollections(repo: SyncRepository, catalog: MovieCatalog, missing: seq<Movie>,
                                  limit: Option<int>, trigger: SyncTrigger, src: CollectionsSource,
                                  startNow: int, endNow: int)
    returns (r: Result<ActionResult<seq<Movie>>, Thrown>, sync: Sync)
    requires repo.Valid()
    modifies repo, catalog, set m | m in missing
    ensures repo.Valid() && fresh(sync)
    ensures r == CollectionsOutcome(missing, limit, src)
    ensures sync.id.Some? && sync.id.value !in old(repo.rows)
    ensures sync.Row() == ManagedRow(NewRow(trigger, Some(MoviesCollections), None), r, startNow, endNow).(id := sync.id)
    ensures repo.rows == old(repo.rows)[sync.id.value := sync.Row()]
    ensures forall k :: 0 <= k < Handled(missing, ToSync(|missing|, limit), src) ==> MarkedSynced(catalog, missing[k])
    ensures TablesAfter(catalog.collections, catalog.movies, missing, Attempted(missing, ToSync(|missing|, limit), src),
                        src, old(catalog.collections), old(catalog.movies))
  {
    sync := repo.Begin(trigger, MoviesCollections, startNow);
    ghost var begun := sync.Row();
    r := CollectionsAction(catalog, missing, limit, src);
    repo.Finish(sync, r, endNow);
    SavedTwice(old(repo.rows), sync.id.value, begun, sync.Row());
  }

  /** A collections sync whose action fails is recorded failed, with the
      message naming the movie; one that succeeds is recorded complete
      with the number of movies handled (unless that is zero). */
  lemma CollectionsSyncRecorded(trigger: SyncTrigger, missing: seq<Movie>, limit: Option<int>,
                                src: CollectionsSource, startNow: int, endNow: int)
    ensures var r := CollectionsOutcome(missing, limit, src);
      var row := ManagedRow(NewRow(trigger, Some(MoviesCollections), None), r, startNow, endNow);
      && (r.Err? ==> row.status == Failed && row.errorMessage == Some(MessageText(r.error)))
      && (r.Ok? ==> row.status == Complete && row.errorMessage.None?)
      && (r.Ok? && ToSync(|missing|, limit) > 0 ==> row.numSynced == Some(ToSync(|missing|, limit)))
  {
    var r := CollectionsOutcome(missing, limit, src);
    ManagedRowClosed(NewRow(trigger, Some(MoviesCollections), None), r, startNow, endNow);
  }
}
