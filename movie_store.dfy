/** The movie entity the collection and credit jobs update in place, and
    the two tables they save to. The queries that pick the movies to
    sync belong to the movies repository, which is not part of this
    model: their results are parameters of the jobs. */
module MovieStore {
  import opened Wrappers
  import opened Failures

  /** A TMDB collection as the collections table stores it. */
  datatype Collection = Collection(id: int, name: string, posterPath: Option<string>, backdropPath: Option<string>)

  /** The field values of a movie entity. */
  datatype MovieRow = MovieRow(
    id: int,
    title: string,
    collections: seq<Collection>,
    syncedCollections: bool,
    syncedCredits: bool)

  /** A loaded movie entity; the jobs set its fields, then save it. */
  class Movie {
    const id: int
    var title: string
    var collections: seq<Collection>
    var syncedCollections: bool
    var syncedCredits: bool

    /** The entity's current field values. */
    function Row(): MovieRow
      reads this
    {
      MovieRow(id, title, collections, syncedCollections, syncedCredits)
    }

    constructor(row: MovieRow)
      ensures Row() == row
    {
      id := row.id;
      title := row.title;
      collections := row.collections;
      syncedCollections := row.syncedCollections;
      syncedCredits := row.syncedCredits;
    }
  }

  /** The movies and collections tables, keyed by id: a save writes the
      whole record under its id, unless the database refuses it. */
  class MovieCatalog {
    var movies: map<int, MovieRow>
    var collections: map<int, Collection>

    constructor(movies0: map<int, MovieRow>, collections0: map<int, Collection>)
      ensures movies == movies0 && collections == collections0
    {
      movies := movies0;
      collections := collections0;
    }

    /** `MoviesRepo.save(movie)`; `fault` is the refusal, if any. */
    method SaveMovie(movie: Movie, fault: Option<Thrown>) returns (failed: Option<Thrown>)
      modifies this
      ensures failed == fault
      ensures fault.None? ==> movies == old(movies)[movie.id := movie.Row()]
      ensures fault.Some? ==> movies == old(movies)
      ensures collections == old(collections)
    {
      failed := fault;
      if fault.None? {
        movies := movies[movie.id := movie.Row()];
      }
    }

    /** `CollectionsRepo.save(collection)`; `fault` is the refusal, if any. */
    method SaveCollection(c: Collection, fault: Option<Thrown>) returns (failed: Option<Thrown>)
      modifies this
      ensures failed == fault
      ensures fault.None? ==> collections == old(collections)[c.id := c]
      ensures fault.Some? ==> collections == old(collections)
      ensures movies == old(movies)
    {
      failed := fault;
      if fault.None? {
        collections := collections[c.id := c];
      }
    }
  }

  /** The ids of the movies. */
  function MovieIds(movies: seq<Movie>): set<int>
    decreases |movies|
  {
    if |movies| == 0 then {} else MovieIds(movies[..|movies| - 1]) + {movies[|movies| - 1].id}
  }

  /** Handling one more movie adds its id. */
  lemma MovieIdsStep(movies: seq<Movie>, i: nat)
    requires i < |movies|
    ensures MovieIds(movies[..i + 1]) == MovieIds(movies[..i]) + {movies[i].id}
  {
    assert movies[..i + 1][..i] == movies[..i];
  }

  /** An id is among the movies' ids exactly when some movie has it. */
  lemma {:induction false} MovieIdsMembers(movies: seq<Movie>, id: int)
    ensures id in MovieIds(movies) <==> exists k :: 0 <= k < |movies| && movies[k].id == id
    decreases |movies|
  {
    if |movies| > 0 {
      var prefix := movies[..|movies| - 1];
      MovieIdsMembers(prefix, id);
      if id in MovieIds(prefix) {
        var k :| 0 <= k < |prefix| && prefix[k].id == id;
        assert movies[k].id == id;
      }
    }
  }

  /** A prefix's ids are among all the ids. */
  lemma MovieIdsPrefix(movies: seq<Movie>, i: nat)
    requires i <= |movies|
    ensures MovieIds(movies[..i]) <= MovieIds(movies)
  {
    forall id | id in MovieIds(movies[..i])
      ensures id in MovieIds(movies)
    {
      MovieIdsMembers(movies[..i], id);
      var k :| 0 <= k < i && movies[..i][k].id == id;
      MovieIdsMembers(movies, id);
    }
  }

  /** The movies table changed only under the ids in `ids`: no other row
      was added, removed or rewritten. */
  predicate KeptOutside(before: map<int, MovieRow>, after: map<int, MovieRow>, ids: set<int>) {
    && after.Keys <= before.Keys + ids
    && forall id :: id in before && id !in ids ==> id in after && after[id] == before[id]
  }

  /** Two changes confined to `ids1` and `ids2` are confined to any set
      holding both. */
  lemma KeptOutsideChain(a: map<int, MovieRow>, b: map<int, MovieRow>, c: map<int, MovieRow>,
                         ids1: set<int>, ids2: set<int>, ids: set<int>)
    requires KeptOutside(a, b, ids1) && KeptOutside(b, c, ids2) && ids1 + ids2 <= ids
    ensures KeptOutside(a, c, ids)
  {
  }

  /** What the missing-movies jobs return: the handled slugs, in order, and the count. */
  datatype MissingMoviesResult = MissingMoviesResult(syncedCount: nat, missing: seq<Option<string>>)

  /** `items.map(m => m.letterboxdSlug)`. */
  function Slugs<T>(items: seq<T>, slug: T -> Option<string>): (slugs: seq<Option<string>>)
    ensures |slugs| == |items|
    ensures forall k :: 0 <= k < |items| ==> slugs[k] == slug(items[k])
  {
    seq(|items|, k requires 0 <= k < |items| => slug(items[k]))
  }
}
