/** The user repository: credential stripping, login, remember-me lookup,
    the entries-update stamps and the choice of the next user to sync. */
module UserRepo {
  import opened Wrappers
  import opened JsText
  import opened DbTypes
  import opened Failures

  /** `removeCredentials`: the user without `password` and `salt`. */
  function RemoveCredentials(u: User): (r: UserResponse)
    ensures r.id == u.id && r.email == u.email && r.details == u.details
    ensures r.rememberMeToken == u.rememberMeToken
    ensures r.lastEntriesUpdate == u.lastEntriesUpdate
    ensures r.lastEntriesUpdateAttempt == u.lastEntriesUpdateAttempt
    ensures r.isAdmin.None?
  {
    UserResponse(u.id, u.email, u.rememberMeToken, u.lastEntriesUpdate,
                 u.lastEntriesUpdateAttempt, u.details, None)
  }

  /** `removeCredentialsAndToken`: `removeCredentials` without the token. */
  function RemoveCredentialsAndToken(u: User): (r: UserPublicSafe)
    ensures r.id == u.id && r.email == u.email && r.details == u.details
    ensures r.lastEntriesUpdate == u.lastEntriesUpdate
    ensures r.lastEntriesUpdateAttempt == u.lastEntriesUpdateAttempt
    ensures r.isAdmin.None?
  {
    var resp := RemoveCredentials(u);
    UserPublicSafe(resp.id, resp.email, resp.lastEntriesUpdate,
                   resp.lastEntriesUpdateAttempt, resp.details, resp.isAdmin)
  }

  /** `convertUserToPublicSafe`: the public view plus the `isAdmin` flag,
      which is decided by a rule outside this model. */
  function ConvertUserToPublicSafe(u: User, isAdmin: User -> bool): (r: UserPublicSafe)
    ensures r == RemoveCredentialsAndToken(u).(isAdmin := Some(isAdmin(u)))
  {
    RemoveCredentialsAndToken(u).(isAdmin := Some(isAdmin(u)))
  }

  /** Neither the password nor the salt can reach a response, and the
      public view does not carry the token either. */
  lemma CredentialsNeverExposed(u: User, password: string, salt: string, token: Option<string>)
    ensures RemoveCredentials(u.(password := password, salt := salt)) == RemoveCredentials(u)
    ensures RemoveCredentialsAndToken(u.(password := password, salt := salt, rememberMeToken := token))
         == RemoveCredentialsAndToken(u)
  {
  }

  /** The index of the first row satisfying `p`: TypeORM's `findOne`,
      modelled as the first match in table order. */
  function FirstMatch(rows: seq<User>, p: User -> bool): (r: Option<nat>)
    ensures r.Some? ==> r.value < |rows| && p(rows[r.value])
    ensures r.Some? ==> forall k :: 0 <= k < r.value ==> !p(rows[k])
    ensures r.None? ==> forall k :: 0 <= k < |rows| ==> !p(rows[k])
  {
    if |rows| == 0 then None
    else if p(rows[0]) then Some(0)
    else match FirstMatch(rows[1..], p)
      case None => None
      case Some(i) => Some(i + 1)
  }

  /** The outcome of a login: what it returns and the rows it leaves. */
  datatype LoginStep = LoginStep(result: Result<UserResponse, Thrown>, rows: seq<User>)

  /** `login` on a store of `rows`. The e-mail is lower-cased, the first
      row with that e-mail is looked up, the password is hashed with the
      row's salt and compared; a truthy `rememberMe` stores `token`
      (a fresh random token) on the row. */
  function LoginOutcome(rows: seq<User>, email: string, password: string, rememberMe: Option<bool>,
                        hash: (string, string) -> string, token: string): (s: LoginStep)
    ensures s.result.Ok? ==> |s.rows| == |rows|
    ensures s.result.Err? ==> s.rows == rows
  {
    var lower := ToLower(email);
    match FirstMatch(rows, (u: User) => u.email == lower)
    case None => LoginStep(Err(Raised(LoginError(""))), rows)
    case Some(i) =>
      if hash(password, rows[i].salt) != rows[i].password then
        LoginStep(Err(Raised(LoginError("Invalid password"))), rows)
      else if rememberMe == Some(true) then
        var saved := rows[i].(rememberMeToken := Some(token));
        LoginStep(Ok(RemoveCredentials(saved)), rows[i := saved])
      else
        LoginStep(Ok(RemoveCredentials(rows[i])), rows)
  }

  /** A login succeeds exactly when some row has the lower-cased e-mail
      and the first such row's stored hash matches; the failure tells an
      unknown user (empty message) from a wrong password. */
  lemma LoginDecision(rows: seq<User>, email: string, password: string, rememberMe: Option<bool>,
                      hash: (string, string) -> string, token: string)
    ensures var s := LoginOutcome(rows, email, password, rememberMe, hash, token);
            var i := FirstMatch(rows, (u: User) => u.email == ToLower(email));
            && (i.None? ==> s.result == Err(Raised(LoginError(""))))
            && (i.Some? && hash(password, rows[i.value].salt) != rows[i.value].password ==>
                  s.result == Err(Raised(LoginError("Invalid password"))))
            && (s.result.Ok? <==> i.Some? && hash(password, rows[i.value].salt) == rows[i.value].password)
            && (s.result.Ok? ==> s.result.value.id == rows[i.value].id && s.result.value.email == ToLower(email))
  {
  }

  /** Only a successful login with a truthy `rememberMe` changes the
      store, and then only the token of the matched row, which is also
      the token returned. */
  lemma LoginTouchesOnlyToken(rows: seq<User>, email: string, password: string, rememberMe: Option<bool>,
                              hash: (string, string) -> string, token: string)
    ensures var s := LoginOutcome(rows, email, password, rememberMe, hash, token);
            (s.result.Err? || rememberMe != Some(true)) ==> s.rows == rows
    ensures var s := LoginOutcome(rows, email, password, rememberMe, hash, token);
            var i := FirstMatch(rows, (u: User) => u.email == ToLower(email));
            s.result.Ok? && rememberMe == Some(true) ==>
              && i.Some?
              && s.result.value.rememberMeToken == Some(token)
              && s.rows == rows[i.value := rows[i.value].(rememberMeToken := Some(token))]
  {
  }

  /** ASCII lower-casing is idempotent. */
  lemma ToLowerIdempotent(s: string)
    ensures ToLower(ToLower(s)) == ToLower(s)
  {
  }

  /** Logging in with an e-mail or with its lower-cased form is the same. */
  lemma LoginIgnoresEmailCase(rows: seq<User>, email: string, password: string, rememberMe: Option<bool>,
                              hash: (string, string) -> string, token: string)
    ensures LoginOutcome(rows, email, password, rememberMe, hash, token)
         == LoginOutcome(rows, ToLower(email), password, rememberMe, hash, token)
  {
    ToLowerIdempotent(email);
  }

  /** `getUserByRememberMeToken` on a store of `rows`. */
  function TokenLookup(rows: seq<User>, token: string): (r: Result<UserResponse, Thrown>)
    ensures r.Err? <==> forall k :: 0 <= k < |rows| ==> rows[k].rememberMeToken != Some(token)
    ensures r.Err? ==> r.error == Raised(UserRepoError("User not found"))
    ensures r.Ok? ==> r.value.rememberMeToken == Some(token)
  {
    match FirstMatch(rows, (u: User) => u.rememberMeToken == Some(token))
    case None => Err(Raised(UserRepoError("User not found")))
    case Some(i) => Ok(RemoveCredentials(rows[i]))
  }

  /** A remember-me login with a token no row held before makes that
      token find exactly the user the login returned. */
  lemma {:induction false} RememberedLoginFoundByToken(rows: seq<User>, email: string, password: string,
                                                       hash: (string, string) -> string, token: string)
    requires forall k :: 0 <= k < |rows| ==> rows[k].rememberMeToken != Some(token)
    requires LoginOutcome(rows, email, password, Some(true), hash, token).result.Ok?
    ensures var s := LoginOutcome(rows, email, password, Some(true), hash, token);
            TokenLookup(s.rows, token) == s.result
  {
    var s := LoginOutcome(rows, email, password, Some(true), hash, token);
    var lower := ToLower(email);
    var i := FirstMatch(rows, (u: User) => u.email == lower).value;
    var p := (u: User) => u.rememberMeToken == Some(token);
    assert p(s.rows[i]);
    assert forall k :: 0 <= k < i ==> !p(s.rows[k]);
    FirstMatchIsFirst(s.rows, p, i);
  }

  /** A row satisfying `p` with no earlier one is what `FirstMatch` finds. */
  lemma {:induction false} FirstMatchIsFirst(rows: seq<User>, p: User -> bool, i: nat)
    requires i < |rows| && p(rows[i])
    requires forall k :: 0 <= k < i ==> !p(rows[k])
    ensures FirstMatch(rows, p) == Some(i)
    decreases i
  {
    if i > 0 {
      FirstMatchIsFirst(rows[1..], p, i - 1);
    }
  }

  /** A sort direction and NULL placement for the entries-update columns. */
  datatype Order = Order(descending: bool, nullsFirst: bool)

  /** Whether column value `x` sorts strictly before `y` under `o`. */
  predicate KeyBefore(x: Option<int>, y: Option<int>, o: Order) {
    match (x, y)
    case (Some(a), Some(b)) => if o.descending then a > b else a < b
    case (None, Some(_)) => o.nullsFirst
    case (Some(_), None) => !o.nullsFirst
    case (None, None) => false
  }

  /** Whether user `a` sorts strictly before `b`: by
      `lastEntriesUpdateAttempt`, then by `lastEntriesUpdate`. */
  predicate RanksBefore(a: User, b: User, o: Order) {
    || KeyBefore(a.lastEntriesUpdateAttempt, b.lastEntriesUpdateAttempt, o)
    || (a.lastEntriesUpdateAttempt == b.lastEntriesUpdateAttempt
        && KeyBefore(a.lastEntriesUpdate, b.lastEntriesUpdate, o))
  }

  /** `RanksBefore` is a strict weak order: irreflexive, asymmetric, and
      whatever sorts before `c` sorts before `b` or `b` sorts before `c`. */
  lemma RanksBeforeIsStrictWeak(a: User, b: User, c: User, o: Order)
    ensures !RanksBefore(a, a, o)
    ensures RanksBefore(a, b, o) ==> !RanksBefore(b, a, o)
    ensures RanksBefore(a, c, o) ==> RanksBefore(a, b, o) || RanksBefore(b, c, o)
  {
  }

  /** The index of the row a `find` with this order and `take: 1`
      returns: among equally ranked rows, the first in table order. */
  function FirstRanked(rows: seq<User>, o: Order): (best: nat)
    requires |rows| > 0
    ensures best < |rows|
  {
    if |rows| == 1 then 0
    else
      var b := FirstRanked(rows[..|rows| - 1], o);
      if RanksBefore(rows[|rows| - 1], rows[b], o) then |rows| - 1 else b
  }

  /** No row sorts strictly before the chosen one, and every earlier row
      sorts strictly after it: the chosen row is the first of the best. */
  lemma {:induction false} FirstRankedIsFirstBest(rows: seq<User>, o: Order)
    requires |rows| > 0
    ensures var best := FirstRanked(rows, o);
            && (forall k :: 0 <= k < |rows| ==> !RanksBefore(rows[k], rows[best], o))
            && (forall k :: 0 <= k < best ==> RanksBefore(rows[best], rows[k], o))
    decreases |rows|
  {
    if |rows| > 1 {
      var n := |rows| - 1;
      var init := rows[..n];
      FirstRankedIsFirstBest(init, o);
      var b := FirstRanked(init, o);
      var best := FirstRanked(rows, o);
      forall k | 0 <= k < |rows|
        ensures !RanksBefore(rows[k], rows[best], o)
      {
        RanksBeforeIsStrictWeak(rows[k], rows[b], rows[n], o);
        if k < n {
          assert init[k] == rows[k];
        }
      }
      forall k | 0 <= k < best
        ensures RanksBefore(rows[best], rows[k], o)
      {
        assert init[k] == rows[k];
        RanksBeforeIsStrictWeak(rows[n], rows[k], rows[b], o);
      }
    }
  }

  /** The first row under order `o`, if there is any row. */
  function FirstUnder(rows: seq<User>, o: Order): (r: Option<User>)
    ensures r.None? <==> |rows| == 0
    ensures r.Some? ==> r.value in rows
  {
    if |rows| == 0 then None else Some(rows[FirstRanked(rows, o)])
  }

  /** The order `getUserWithOldestEntries` asks for: both columns
      descending. Where NULLs go is the database's choice (PostgreSQL
      puts them first in a descending sort, SQLite last). */
  function AsWrittenOrder(nullsFirst: bool): Order {
    Order(true, nullsFirst)
  }

  /** The order the name promises: users never attempted first, then the
      least recently attempted. */
  const OldestFirstOrder := Order(false, true)

  /** Under the order as written, when every user has been attempted, the
      chosen user is the MOST recently attempted one. */
  lemma {:induction false} AsWrittenPicksMostRecent(rows: seq<User>, nullsFirst: bool)
    requires |rows| > 0
    requires forall k :: 0 <= k < |rows| ==> rows[k].lastEntriesUpdateAttempt.Some?
    ensures var u := FirstUnder(rows, AsWrittenOrder(nullsFirst)).value;
            forall k :: 0 <= k < |rows| ==>
              rows[k].lastEntriesUpdateAttempt.value <= u.lastEntriesUpdateAttempt.value
  {
    FirstRankedIsFirstBest(rows, AsWrittenOrder(nullsFirst));
  }

  /** Under the intended order the chosen user has never been attempted
      when anyone has not, and otherwise has the oldest attempt. */
  lemma {:induction false} OldestFirstPicksLeastRecent(rows: seq<User>)
    requires |rows| > 0
    ensures var u := FirstUnder(rows, OldestFirstOrder).value;
            forall k :: 0 <= k < |rows| ==>
              match (rows[k].lastEntriesUpdateAttempt, u.lastEntriesUpdateAttempt)
              case (None, a) => a.None?
              case (Some(x), Some(a)) => a <= x
              case (Some(_), None) => true
  {
    FirstRankedIsFirstBest(rows, OldestFirstOrder);
  }

  /** Two users attempted at times 1 and 2: the order as written picks the
      one attempted at 2 on either database; the intended one picks 1. */
  lemma NewerAttemptChosenExample(a: User, b: User, nullsFirst: bool)
    requires a.lastEntriesUpdateAttempt == Some(1)
    requires b.lastEntriesUpdateAttempt == Some(2)
    ensures FirstUnder([a, b], AsWrittenOrder(nullsFirst)) == Some(b)
    ensures FirstUnder([a, b], OldestFirstOrder) == Some(a)
  {
    assert [a, b][..1] == [a];
  }

  /** The users table. */
  class UserRepository {
    var rows: seq<User>

    constructor(rows0: seq<User>)
      ensures rows == rows0
    {
      rows := rows0;
    }

    /** `login`; `hash` is the salted password hash and `token` the value
        `getRememberMeToken` would produce. */
    method Login(email: string, password: string, rememberMe: Option<bool>,
                 hash: (string, string) -> string, token: string)
      returns (r: Result<UserResponse, Thrown>)
      modifies this
      ensures LoginStep(r, rows) == LoginOutcome(old(rows), email, password, rememberMe, hash, token)
    {
      var lower := ToLower(email);
      var found := FirstMatch(rows, (u: User) => u.email == lower);
      if found.None? {
        return Err(Raised(LoginError("")));
      }
      var i := found.value;
      var user := rows[i];
      if hash(password, user.salt) != user.password {
        return Err(Raised(LoginError("Invalid password")));
      }
      if rememberMe == Some(true) {
        user := user.(rememberMeToken := Some(token));
        rows := rows[i := user];
      }
      r := Ok(RemoveCredentials(user));
    }

    /** `getUserByRememberMeToken`. */
    function GetUserByRememberMeToken(token: string): (r: Result<UserResponse, Thrown>)
      reads this
      ensures r == TokenLookup(rows, token)
    {
      TokenLookup(rows, token)
    }

    /** `setLastEntriesUpdated`: stamps every row with this id. */
    method SetLastEntriesUpdated(id: int, date: int)
      modifies this
      ensures |rows| == |old(rows)|
      ensures forall k :: 0 <= k < |rows| ==>
                rows[k] == if old(rows)[k].id == id then old(rows)[k].(lastEntriesUpdate := Some(date))
                           else old(rows)[k]
    {
      var before := rows;
      rows := seq(|before|, k requires 0 <= k < |before| =>
        if before[k].id == id then before[k].(lastEntriesUpdate := Some(date)) else before[k]);
    }

    /** `setLastEntriesUpdateAttempt`: stamps every row with this id. */
    method SetLastEntriesUpdateAttempt(id: int, date: int)
      modifies this
      ensures |rows| == |old(rows)|
      ensures forall k :: 0 <= k < |rows| ==>
                rows[k] == if old(rows)[k].id == id then old(rows)[k].(lastEntriesUpdateAttempt := Some(date))
                           else old(rows)[k]
    {
      var before := rows;
      rows := seq(|before|, k requires 0 <= k < |before| =>
        if before[k].id == id then before[k].(lastEntriesUpdateAttempt := Some(date)) else before[k]);
    }

    /** `getUserWithOldestEntries`, on a database that puts NULLs first
        in a descending sort when `nullsFirst` holds. */
    function GetUserWithOldestEntries(nullsFirst: bool, isAdmin: User -> bool): (r: Option<UserPublicSafe>)
      reads this
      ensures r.None? <==> |rows| == 0
      ensures r.Some? ==> exists k :: 0 <= k < |rows| && r.value == ConvertUserToPublicSafe(rows[k], isAdmin)
    {
      match FirstUnder(rows, AsWrittenOrder(nullsFirst))
      case None => None
      case Some(u) => Some(ConvertUserToPublicSafe(u, isAdmin))
    }
  }

  /** Stamping a user's attempt with a time later than every other
      attempt makes the order as written choose that user again next. */
  lemma {:induction false} JustAttemptedChosenAgain(rows: seq<User>, id: int, now: int, nullsFirst: bool)
    requires exists k :: 0 <= k < |rows| && rows[k].id == id
    requires forall k :: 0 <= k < |rows| ==>
               rows[k].lastEntriesUpdateAttempt.Some? && rows[k].lastEntriesUpdateAttempt.value < now
    ensures var stamped := seq(|rows|, k requires 0 <= k < |rows| =>
              if rows[k].id == id then rows[k].(lastEntriesUpdateAttempt := Some(now)) else rows[k]);
            FirstUnder(stamped, AsWrittenOrder(nullsFirst)).value.id == id
  {
    var stamped := seq(|rows|, k requires 0 <= k < |rows| =>
      if rows[k].id == id then rows[k].(lastEntriesUpdateAttempt := Some(now)) else rows[k]);
    var j :| 0 <= j < |rows| && rows[j].id == id;
    AsWrittenPicksMostRecent(stamped, nullsFirst);
    assert stamped[j].lastEntriesUpdateAttempt == Some(now);
  }
}
