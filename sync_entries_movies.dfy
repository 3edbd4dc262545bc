/** The job of src/lib/managedSyncs/syncEntriesMovies.ts: create
    the movies that film entries point at but that are not
    in the movies table yet.

    The film-entries query and the movies repository's `syncMovies`
    (which fetches and stores the movies, returning how many it stored or
    its failure) are parameters; so is `describe`, standing for
    `JSON.stringify`. */
module SyncEntriesMovies {
  import opened Wrappers
  import opened JsText
  import opened Failures
  import opened DbTypes
  import opened SyncRepo
  import opened MovieStore

  /** The default number of film entries a run asks for. */
  const DEFAULT_ENTRIES_LIMIT := 1000

  /** The message of a run that stored no movie. */
  function NoEntriesMoviesMessage(count: nat, described: string): string {
    "Attempted to sync " + IntString(count) + " movies, but 0 were synced. " + described
  }

  /** `syncEntriesMovies`. The sync is queued with its type; it is
      ended complete, with the count, only when movies were stored. An
      empty query result, a failure of `syncMovies` or a run that stored
      nothing leaves it queued. */
  method SyncEntriesMovies<T>(repo: SyncRepository, missingQuery: int -> seq<T>, limit: Option<int>,
                                    syncMovies: seq<T> -> Result<nat, Thrown>, slug: T -> Option<string>,
                                    describe: seq<T> -> string, now: int, endNow: int)
    returns (r: Result<MissingMoviesResult, Thrown>, sync: Sync)
    requires repo.Valid()
    modifies repo
    ensures repo.Valid() && fresh(sync)
    ensures sync.id.Some? && sync.id.value !in old(repo.rows)
    ensures repo.rows == old(repo.rows)[sync.id.value := sync.Row()]
    ensures var missing := missingQuery(limit.GetOr(DEFAULT_ENTRIES_LIMIT));
      var queued := QueuedRow(EntriesMissingMovies, sync.id.value);
      && (|missing| == 0 ==> r == Ok(MissingMoviesResult(0, [])) && sync.Row() == queued)
      && (|missing| > 0 && syncMovies(missing).Err? ==> r == Err(syncMovies(missing).error) && sync.Row() == queued)
      && (|missing| > 0 && syncMovies(missing).Ok? && syncMovies(missing).value > 0 ==>
            && r == Ok(MissingMoviesResult(syncMovies(missing).value, Slugs(missing, slug)))
            && sync.Row() == EndedRow(queued, CompleteOptions(syncMovies(missing).value, None), endNow))
      && (|missing| > 0 && syncMovies(missing) == Ok(0) ==>
            && r == Err(Raised(PlainError(NoEntriesMoviesMessage(|missing|, describe(missing)))))
            && sync.Row() == queued)
  {
    sync := repo.QueueTyped(EntriesMissingMovies, now);
    var missingMovies := missingQuery(limit.GetOr(DEFAULT_ENTRIES_LIMIT));
    if |missingMovies| == 0 {
      return Ok(MissingMoviesResult(0, [])), sync;
    }
    var synced := syncMovies(missingMovies);
    if synced.Err? {
      return Err(synced.error), sync;
    }
    if synced.value > 0 {
      repo.EndSync(sync, CompleteOptions(synced.value, None), endNow);
    } else {
      var message := NoEntriesMoviesMessage(|missingMovies|, describe(missingMovies));
      return Err(Raised(PlainError(message))), sync;
    }
    r := Ok(MissingMoviesResult(synced.value, Slugs(missingMovies, slug)));
  }
}
