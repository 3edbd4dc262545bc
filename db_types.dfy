/** The sync enums and the user projections declared in
    src/common/types/db.ts, with the string tags the store keeps. */
module DbTypes {
  import opened Wrappers

  /** The state of one sync attempt. */
  datatype SyncStatus = Pending | InProgress | Complete | Skipped | Failed {

    /** A status no later transition leaves. */
    predicate IsTerminal() {
      Complete? || Skipped? || Failed?
    }
  }

  /** The string stored for a status. */
  function StatusTag(s: SyncStatus): string {
    match s
    case Pending => "Pending"
    case InProgress => "In Progress"
    case Complete => "Complete"
    case Skipped => "Skipped"
    case Failed => "Failed"
  }

  /** Reads a stored status tag back. */
  function ParseSyncStatus(tag: string): Option<SyncStatus> {
    if tag == "Pending" then Some(Pending)
    else if tag == "In Progress" then Some(InProgress)
    else if tag == "Complete" then Some(Complete)
    else if tag == "Skipped" then Some(Skipped)
    else if tag == "Failed" then Some(Failed)
    else None
  }

  /** The five statuses carry five distinct tags, each read back as itself. */
  lemma StatusTagRoundTrip(s: SyncStatus)
    ensures ParseSyncStatus(StatusTag(s)) == Some(s)
  {
    match s
    case Pending =>
    case InProgress => assert StatusTag(s)[0] != "Pending"[0];
    case Complete => assert StatusTag(s)[0] != "Pending"[0] && StatusTag(s)[0] != "In Progress"[0];
    case Skipped =>
      assert StatusTag(s)[0] != "Pending"[0] && StatusTag(s)[0] != "In Progress"[0];
      assert StatusTag(s)[0] != "Complete"[0];
    case Failed =>
      assert StatusTag(s)[0] != "Pending"[0] && StatusTag(s)[0] != "In Progress"[0];
      assert StatusTag(s)[0] != "Complete"[0] && StatusTag(s)[0] != "Skipped"[0];
  }

  /** What is being synced. */
  datatype SyncType =
    | Unknown | NoType | UserRatings | UserLists | RatingsMovies
    | EntriesMissingMovies | MoviesCast | MoviesCrew | MoviesCredits
    | MoviesCollections | PopularMoviesYear | PopularMoviesGenre
    | PopularMoviesMovies | DeprecatedMovies

  /** The string stored for a sync type. */
  function TypeTag(t: SyncType): string {
    match t
    case Unknown => "Unknown"
    case NoType => "None"
    case UserRatings => "User:Ratings"
    case UserLists => "User:Lists"
    case RatingsMovies => "Ratings:Movies"
    case EntriesMissingMovies => "Entries:Missing_Movies"
    case MoviesCast => "Movies:Cast"
    case MoviesCrew => "Movies:Crew"
    case MoviesCredits => "Movies:Credits"
    case MoviesCollections => "Movies:Collections"
    case PopularMoviesYear => "Popular_Movies:By_Year"
    case PopularMoviesGenre => "Popular_Movies:By_Genre"
    case PopularMoviesMovies => "Popular_Movies:Movies"
    case DeprecatedMovies => "Movies"
  }

  const AllSyncTypes: seq<SyncType> := [
    Unknown, NoType, UserRatings, UserLists, RatingsMovies,
    EntriesMissingMovies, MoviesCast, MoviesCrew, MoviesCredits,
    MoviesCollections, PopularMoviesYear, PopularMoviesGenre,
    PopularMoviesMovies, DeprecatedMovies
  ]

  /** The position of a sync type in `AllSyncTypes`. */
  function Ordinal(t: SyncType): (k: nat)
    ensures k < |AllSyncTypes| && AllSyncTypes[k] == t
  {
    match t
    case Unknown => 0
    case NoType => 1
    case UserRatings => 2
    case UserLists => 3
    case RatingsMovies => 4
    case EntriesMissingMovies => 5
    case MoviesCast => 6
    case MoviesCrew => 7
    case MoviesCredits => 8
    case MoviesCollections => 9
    case PopularMoviesYear => 10
    case PopularMoviesGenre => 11
    case PopularMoviesMovies => 12
    case DeprecatedMovies => 13
  }

  /** Reads a stored type tag back: the first sync type carrying it. */
  function ParseSyncType(tag: string): Option<SyncType> {
    FirstWithTag(AllSyncTypes, tag)
  }

  function FirstWithTag(ts: seq<SyncType>, tag: string): Option<SyncType>
    decreases |ts|
  {
    if |ts| == 0 then None
    else if TypeTag(ts[0]) == tag then Some(ts[0])
    else FirstWithTag(ts[1..], tag)
  }

  /** Every sync type's tag is read back as that same type, so no two
      sync types share a tag. */
  lemma TypeTagRoundTrip(t: SyncType)
    ensures ParseSyncType(TypeTag(t)) == Some(t)
  {
    var tag := TypeTag(t);
    var k := Ordinal(t);
    forall j | 0 <= j < k ensures TypeTag(AllSyncTypes[j]) != tag {
      TagsDiffer(AllSyncTypes[j], t);
    }
    FirstWithTagFinds(AllSyncTypes, tag, k);
  }

  lemma {:induction false} FirstWithTagFinds(ts: seq<SyncType>, tag: string, k: nat)
    requires k < |ts| && TypeTag(ts[k]) == tag
    requires forall j :: 0 <= j < k ==> TypeTag(ts[j]) != tag
    ensures FirstWithTag(ts, tag) == Some(ts[k])
    decreases k
  {
    if k > 0 {
      FirstWithTagFinds(ts[1..], tag, k - 1);
    }
  }

  /** Distinct sync types have distinct tags (compared by length, then by
      one distinguishing character). */
  lemma TagsDiffer(a: SyncType, b: SyncType)
    requires a != b
    ensures TypeTag(a) != TypeTag(b)
  {
    var x, y := TypeTag(a), TypeTag(b);
    if |x| == |y| {
      if |x| == 11 {
        // "Movies:Cast" and "Movies:Crew"
        assert x[8] != y[8];
      } else if |x| == 14 || |x| == 22 {
        // "Ratings:Movies" and "Movies:Credits";
        // "Entries:Missing_Movies" and "Popular_Movies:By_Year"
        assert x[0] != y[0];
      } else {
        // every other length belongs to one tag only
        assert false;
      }
    }
  }

  /** Who started a sync. */
  datatype SyncTrigger = SystemTrigger | UserTrigger

  function TriggerTag(t: SyncTrigger): string {
    match t
    case SystemTrigger => "system"
    case UserTrigger => "user"
  }

  function ParseSyncTrigger(tag: string): Option<SyncTrigger> {
    if tag == "system" then Some(SystemTrigger) else if tag == "user" then Some(UserTrigger) else None
  }

  /** The two triggers carry two distinct tags, each read back as itself. */
  lemma TriggerTagRoundTrip(t: SyncTrigger)
    ensures ParseSyncTrigger(TriggerTag(t)) == Some(t)
  {
    if t == UserTrigger {
      assert |TriggerTag(t)| != |"system"|;
    }
  }

  /** The columns of a user other than identity, credentials and sync dates. */
  datatype UserDetails = UserDetails(
    username: string,
    name: string,
    avatarUrl: string,
    accountLevel: string)

  /** A stored user row. */
  datatype User = User(
    id: int,
    email: string,
    password: string,
    salt: string,
    rememberMeToken: Option<string>,
    lastEntriesUpdate: Option<int>,
    lastEntriesUpdateAttempt: Option<int>,
    details: UserDetails)

  /** `UserResponse`: a user without `password` and `salt`, with an
      optional `isAdmin` flag. */
  datatype UserResponse = UserResponse(
    id: int,
    email: string,
    rememberMeToken: Option<string>,
    lastEntriesUpdate: Option<int>,
    lastEntriesUpdateAttempt: Option<int>,
    details: UserDetails,
    isAdmin: Option<bool>)

  /** `UserPublicSafe`: a `UserResponse` without `rememberMeToken`. */
  datatype UserPublicSafe = UserPublicSafe(
    id: int,
    email: string,
    lastEntriesUpdate: Option<int>,
    lastEntriesUpdateAttempt: Option<int>,
    details: UserDetails,
    isAdmin: Option<bool>)
}
