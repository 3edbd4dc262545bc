/** The incremental user-watch walk of src/lib/syncUserWatches.ts: pages
    of a user's rated-date films are scraped in order, each page's watches
    are saved (optionally stopping at the first one already stored), and
    the walk ends at an empty page or once `maxSync` watches are synced.

    The fetched pages, the film pages and the date parser are parameters;
    so are `lookupFault` and `saveFault`, the failure (if any) the store
    raises when asked whether a record is already stored and when asked
    to save it. `now` is the clock reading taken at the start. */
module UserWatches {
  import opened Wrappers
  import opened JsText
  import opened Scraped
  import opened Failures
  import opened DbTypes
  import opened UserRepo
  import opened LetterboxdWatches

  type LookupFaults = FilmEntry -> Option<Thrown>
  type SaveFaults = FilmEntry -> Option<Thrown>
  type WatchPages = int -> Result<seq<WatchItem>, Thrown>

  /** A record as saved: stamped with the syncing user's id. */
  function Stamp(w: FilmEntry, userId: int): (e: FilmEntry)
    ensures e.userId == Some(userId)
    ensures e.(userId := w.userId) == w
  {
    w.(userId := Some(userId))
  }

  function StampAll(ws: seq<FilmEntry>, userId: int): (r: seq<FilmEntry>)
    ensures |r| == |ws|
    ensures forall k :: 0 <= k < |ws| ==> r[k] == Stamp(ws[k], userId)
  {
    seq(|ws|, k requires 0 <= k < |ws| => Stamp(ws[k], userId))
  }

  /** A record with a numeric movie id and a string name. */
  predicate Identified(w: FilmEntry) {
    w.movieId.Some? && w.name.Some?
  }

  /** What the identity check throws for a record it rejects; the missing
      value prints as "undefined", its type as "undefined" too. */
  function IdentityError(w: FilmEntry): (t: Thrown)
    ensures t.Raised? && t.error.PlainError?
  {
    if w.movieId.None? then Raised(PlainError("Invalid TMDB ID: undefined (undefined)"))
    else Raised(PlainError("Invalid name undefined (undefined)"))
  }

  /** Whether stored entry `e` answers the duplicate query for `w`: the
      query names `movieId`, `userId`, `letterboxdSlug`, `name`, `stars`
      and `heart`, and a key whose value is undefined is not constrained. */
  predicate SameWatch(e: FilmEntry, w: FilmEntry, userId: int) {
    && e.movieId == w.movieId
    && e.userId == Some(userId)
    && (w.letterboxdSlug.None? || e.letterboxdSlug == w.letterboxdSlug)
    && e.name == w.name
    && (w.stars.None? || e.stars == w.stars)
    && (w.heart.None? || e.heart == w.heart)
  }

  predicate Duplicated(entries: seq<FilmEntry>, w: FilmEntry, userId: int) {
    exists k :: 0 <= k < |entries| && SameWatch(entries[k], w, userId)
  }

  /** The message a failed save is rethrown with. */
  function SaveErrorMessage(username: string, userId: int, t: Thrown): (m: string)
    ensures StartsWith(m, "Error while syncing watches for Letterboxd user ")
  {
    var head := "Error while syncing watches for Letterboxd user ";
    var m := head + username + " for user ID " + IntString(userId) + ": " + ErrorMessageOr(t, "Unknown error");
    assert m[..|head|] == head;
    m
  }

  /** Why the record `w` ended its page with the error `t`: it lacked an
      identity; or, in duplicate mode, the duplicate query failed; or (not
      a duplicate that ends the page first) its save failed. Both store
      failures are rethrown with context. */
  predicate FailsWith(entries: seq<FilmEntry>, w: FilmEntry, userId: int, username: string,
                      breakOnDuplicates: bool, lookupFault: LookupFaults, saveFault: SaveFaults, t: Thrown) {
    || (!Identified(w) && t == IdentityError(w))
    || (&& Identified(w)
        && breakOnDuplicates
        && lookupFault(Stamp(w, userId)).Some?
        && t == Raised(PlainError(SaveErrorMessage(username, userId, lookupFault(Stamp(w, userId)).value))))
    || (&& Identified(w)
        && !(breakOnDuplicates && (lookupFault(Stamp(w, userId)).Some? || Duplicated(entries, w, userId)))
        && saveFault(Stamp(w, userId)).Some?
        && t == Raised(PlainError(SaveErrorMessage(username, userId, saveFault(Stamp(w, userId)).value))))
  }

  /** The film-entry table. */
  class FilmEntryStore {
    var entries: seq<FilmEntry>

    constructor(entries0: seq<FilmEntry>)
      ensures entries == entries0
    {
      entries := entries0;
    }

    /** `findOneBy` with the duplicate query for `w`, which the store may
        fail; otherwise whether a stored entry answers it. */
    method FindDuplicate(w: FilmEntry, userId: int, lookupFault: LookupFaults) returns (found: Result<bool, Thrown>)
      ensures lookupFault(Stamp(w, userId)).Some? ==> found == Err(lookupFault(Stamp(w, userId)).value)
      ensures lookupFault(Stamp(w, userId)).None? ==> found == Ok(Duplicated(entries, w, userId))
    {
      match lookupFault(Stamp(w, userId))
      case Some(t) => found := Err(t);
      case None => found := Ok(Duplicated(entries, w, userId));
    }

    /** `create` + `save` of a new record, which the store may refuse. */
    method Save(e: FilmEntry, saveFault: SaveFaults) returns (failed: Option<Thrown>)
      modifies this
      ensures failed == saveFault(e)
      ensures entries == if failed.None? then old(entries) + [e] else old(entries)
    {
      failed := saveFault(e);
      if failed.None? {
        entries := entries + [e];
      }
    }
  }

  /** Stamping one more record extends the stamped prefix by it. */
  lemma StampAllStep(ws: seq<FilmEntry>, i: nat, userId: int)
    requires i < |ws|
    ensures StampAll(ws[..i], userId) + [Stamp(ws[i], userId)] == StampAll(ws[..i + 1], userId)
  {
    assert ws[..i + 1] == ws[..i] + [ws[i]];
  }

  /** No record saved so far was a duplicate of what preceded it, when
      the next one is not a duplicate either. */
  lemma UniqueSoFarStep(base: seq<FilmEntry>, saved: seq<FilmEntry>, ws: seq<FilmEntry>, i: nat,
                        userId: int, x: FilmEntry)
    requires i < |ws| && |saved| == i
    requires forall k :: 0 <= k < i ==> !Duplicated(base + saved[..k], ws[k], userId)
    requires !Duplicated(base + saved, ws[i], userId)
    ensures forall k :: 0 <= k < i + 1 ==> !Duplicated(base + (saved + [x])[..k], ws[k], userId)
  {
    assert (saved + [x])[..i] == saved;
    assert forall k :: 0 <= k < i ==> (saved + [x])[..k] == saved[..k];
  }

  /** What saving a page gives: its outcome and the film-entry table it
      leaves. */
  datatype PageSave = PageSave(result: Result<seq<FilmEntry>, Thrown>, entries: seq<FilmEntry>)

  /** Saving the page's records from the `i`-th on against the table
      `entries`, `saved` being those the page saved before: each record
      in turn is checked for an identity, then (in duplicate mode) looked
      up and ends the page if already stored, else is stamped and saved.
      A failed lookup or save is rethrown with context. */
  function SaveFrom(entries: seq<FilmEntry>, saved: seq<FilmEntry>, ws: seq<FilmEntry>, i: nat, userId: int,
                    username: string, breakOnDuplicates: bool, lookupFault: LookupFaults, saveFault: SaveFaults): PageSave
    requires i <= |ws|
    decreases |ws| - i
  {
    if i == |ws| then PageSave(Ok(saved), entries)
    else if !Identified(ws[i]) then PageSave(Err(IdentityError(ws[i])), entries)
    else if breakOnDuplicates && lookupFault(Stamp(ws[i], userId)).Some? then
      PageSave(Err(Raised(PlainError(SaveErrorMessage(username, userId, lookupFault(Stamp(ws[i], userId)).value)))),
               entries)
    else if breakOnDuplicates && Duplicated(entries, ws[i], userId) then PageSave(Ok(saved), entries)
    else match saveFault(Stamp(ws[i], userId))
      case Some(t) => PageSave(Err(Raised(PlainError(SaveErrorMessage(username, userId, t)))), entries)
      case None =>
        SaveFrom(entries + [Stamp(ws[i], userId)], saved + [Stamp(ws[i], userId)], ws, i + 1,
                 userId, username, breakOnDuplicates, lookupFault, saveFault)
  }

  /** The saving half of `syncWatchesForPage` as a value: a failed scrape
      propagates and saves nothing. */
  function SavePage(entries: seq<FilmEntry>, scraped: Result<seq<FilmEntry>, Thrown>, userId: int,
                    username: string, breakOnDuplicates: bool, lookupFault: LookupFaults, saveFault: SaveFaults): PageSave
  {
    match scraped
    case Err(t) => PageSave(Err(t), entries)
    case Ok(ws) => SaveFrom(entries, [], ws, 0, userId, username, breakOnDuplicates, lookupFault, saveFault)
  }

  lemma AppendAssoc(a: seq<FilmEntry>, b: seq<FilmEntry>, c: seq<FilmEntry>)
    ensures (a + b) + c == a + (b + c)
  {
  }

  /** Stamping a non-empty run stamps its head, then the rest. */
  lemma StampAllCons(ws: seq<FilmEntry>, userId: int)
    requires |ws| > 0
    ensures StampAll(ws, userId) == [Stamp(ws[0], userId)] + StampAll(ws[1..], userId)
  {
  }

  /** Without duplicate checking, a page saved without error saved every
      one of its records, stamped, in page order. */
  lemma {:induction false} SavePageInFull(entries: seq<FilmEntry>, ws: seq<FilmEntry>, userId: int,
                                          username: string, lookupFault: LookupFaults, saveFault: SaveFaults)
    requires SavePage(entries, Ok(ws), userId, username, false, lookupFault, saveFault).result.Ok?
    ensures var out := SavePage(entries, Ok(ws), userId, username, false, lookupFault, saveFault);
      out.result.value == StampAll(ws, userId) && out.entries == entries + StampAll(ws, userId)
  {
    SaveFromInFull(entries, [], ws, 0, userId, username, lookupFault, saveFault);
    assert ws[0..] == ws;
  }

  lemma {:induction false} SaveFromInFull(entries: seq<FilmEntry>, saved: seq<FilmEntry>, ws: seq<FilmEntry>,
                                          i: nat, userId: int, username: string, lookupFault: LookupFaults, saveFault: SaveFaults)
    requires i <= |ws|
    requires SaveFrom(entries, saved, ws, i, userId, username, false, lookupFault, saveFault).result.Ok?
    ensures var out := SaveFrom(entries, saved, ws, i, userId, username, false, lookupFault, saveFault);
      out.result.value == saved + StampAll(ws[i..], userId) && out.entries == entries + StampAll(ws[i..], userId)
    decreases |ws| - i
  {
    if i == |ws| {
      assert StampAll(ws[i..], userId) == [];
    } else {
      var e := Stamp(ws[i], userId);
      assert Identified(ws[i]) && saveFault(e).None?;
      assert SaveFrom(entries, saved, ws, i, userId, username, false, lookupFault, saveFault)
          == SaveFrom(entries + [e], saved + [e], ws, i + 1, userId, username, false, lookupFault, saveFault);
      SaveFromInFull(entries + [e], saved + [e], ws, i + 1, userId, username, lookupFault, saveFault);
      StampAllCons(ws[i..], userId);
      assert ws[i..][1..] == ws[i + 1..];
      var rest := StampAll(ws[i + 1..], userId);
      assert StampAll(ws[i..], userId) == [e] + rest;
      AppendAssoc(entries, [e], rest);
      AppendAssoc(saved, [e], rest);
    }
  }

  /** How one record's turn in the save loop ends. */
  datatype RecordStep = Stored | AlreadyStored | Threw(error: Thrown)

  /** One record's turn in the save loop of `syncWatchesForPage`: the
      identity check, in duplicate mode the lookup, then the save. The
      rest of the page is what the turn decides. */
  method SaveTurn(store: FilmEntryStore, ws: seq<FilmEntry>, i: nat, ghost saved: seq<FilmEntry>, userId: int,
                  username: string, breakOnDuplicates: bool, lookupFault: LookupFaults, saveFault: SaveFaults)
    returns (step: RecordStep)
    requires i < |ws|
    modifies store
    ensures SaveFrom(old(store.entries), saved, ws, i, userId, username, breakOnDuplicates, lookupFault, saveFault)
         == match step
            case Threw(t) => PageSave(Err(t), store.entries)
            case AlreadyStored => PageSave(Ok(saved), store.entries)
            case Stored =>
              SaveFrom(store.entries, saved + [Stamp(ws[i], userId)], ws, i + 1, userId, username,
                       breakOnDuplicates, lookupFault, saveFault)
    ensures !step.Stored? ==> store.entries == old(store.entries)
    ensures step.Stored? ==> store.entries == old(store.entries) + [Stamp(ws[i], userId)]
    ensures step.Stored? && breakOnDuplicates ==> !Duplicated(old(store.entries), ws[i], userId)
    ensures step.AlreadyStored? ==> breakOnDuplicates && Identified(ws[i]) && Duplicated(store.entries, ws[i], userId)
    ensures step.Threw? ==>
      FailsWith(store.entries, ws[i], userId, username, breakOnDuplicates, lookupFault, saveFault, step.error)
  {
    var w := ws[i];
    if w.movieId.None? || w.name.None? {
      return Threw(IdentityError(w));
    }
    if breakOnDuplicates {
      var found := store.FindDuplicate(w, userId, lookupFault);
      if found.Err? {
        return Threw(Raised(PlainError(SaveErrorMessage(username, userId, found.error))));
      }
      if found.value {
        return AlreadyStored;
      }
    }
    var failed := store.Save(Stamp(w, userId), saveFault);
    if failed.Some? {
      return Threw(Raised(PlainError(SaveErrorMessage(username, userId, failed.value))));
    }
    step := Stored;
  }

  /** The save loop of `syncWatchesForPage` over the scraped records
      `ws`, in page order. */
  method SaveLoop(store: FilmEntryStore, ws: seq<FilmEntry>, userId: int, username: string,
                  breakOnDuplicates: bool, lookupFault: LookupFaults, saveFault: SaveFaults)
    returns (r: Result<seq<FilmEntry>, Thrown>)
    modifies store
    ensures PageSave(r, store.entries)
         == SaveFrom(old(store.entries), [], ws, 0, userId, username, breakOnDuplicates, lookupFault, saveFault)
    ensures r.Ok? ==>
      && |r.value| <= |ws|
      && r.value == StampAll(ws[..|r.value|], userId)
      && store.entries == old(store.entries) + r.value
      && (!breakOnDuplicates ==> |r.value| == |ws|)
    ensures r.Ok? && |r.value| < |ws| ==>
      breakOnDuplicates && Identified(ws[|r.value|]) && Duplicated(store.entries, ws[|r.value|], userId)
    ensures r.Ok? && breakOnDuplicates ==> forall k :: 0 <= k < |r.value| ==>
      !Duplicated(old(store.entries) + r.value[..k], ws[k], userId)
    ensures r.Err? ==>
      exists m :: 0 <= m < |ws| && store.entries == old(store.entries) + StampAll(ws[..m], userId)
        && FailsWith(store.entries, ws[m], userId, username, breakOnDuplicates, lookupFault, saveFault, r.error)
  {
    var saved: seq<FilmEntry> := [];
    var i := 0;
    while i < |ws|
      invariant 0 <= i <= |ws|
      invariant saved == StampAll(ws[..i], userId)
      invariant store.entries == old(store.entries) + saved
      invariant SaveFrom(store.entries, saved, ws, i, userId, username, breakOnDuplicates, lookupFault, saveFault)
             == SaveFrom(old(store.entries), [], ws, 0, userId, username, breakOnDuplicates, lookupFault, saveFault)
      invariant breakOnDuplicates ==> forall k :: 0 <= k < i ==>
        !Duplicated(old(store.entries) + saved[..k], ws[k], userId)
    {
      var step := SaveTurn(store, ws, i, saved, userId, username, breakOnDuplicates, lookupFault, saveFault);
      if step.Threw? {
        return Err(step.error);
      }
      if step.AlreadyStored? {
        break;
      }
      StampAllStep(ws, i, userId);
      if breakOnDuplicates {
        UniqueSoFarStep(old(store.entries), saved, ws, i, userId, Stamp(ws[i], userId));
      }
      AppendAssoc(old(store.entries), saved, [Stamp(ws[i], userId)]);
      saved := saved + [Stamp(ws[i], userId)];
      i := i + 1;
    }
    r := Ok(saved);
  }

  /** The saving half of `syncWatchesForPage`, given the outcome of the
      page's scrape. Records are saved in page order, each stamped with
      `userId`. The first record without an identity throws; in duplicate
      mode the first record already stored ends the page; a failed
      duplicate lookup or save throws with context; records before any of
      these stay saved. */
  method SavePageWatches(store: FilmEntryStore, scraped: Result<seq<FilmEntry>, Thrown>, userId: int,
                         username: string, breakOnDuplicates: bool, lookupFault: LookupFaults, saveFault: SaveFaults)
    returns (r: Result<seq<FilmEntry>, Thrown>)
    modifies store
    ensures PageSave(r, store.entries)
         == SavePage(old(store.entries), scraped, userId, username, breakOnDuplicates, lookupFault, saveFault)
    ensures scraped.Err? ==> r == Err(scraped.error) && store.entries == old(store.entries)
    ensures scraped.Ok? && r.Ok? ==> var ws := scraped.value;
      && |r.value| <= |ws|
      && r.value == StampAll(ws[..|r.value|], userId)
      && store.entries == old(store.entries) + r.value
      && (!breakOnDuplicates ==> |r.value| == |ws|)
    ensures scraped.Ok? && r.Ok? && |r.value| < |scraped.value| ==>
      breakOnDuplicates && Identified(scraped.value[|r.value|])
      && Duplicated(store.entries, scraped.value[|r.value|], userId)
    ensures scraped.Ok? && r.Ok? && breakOnDuplicates ==> forall k :: 0 <= k < |r.value| ==>
      !Duplicated(old(store.entries) + r.value[..k], scraped.value[k], userId)
    ensures scraped.Ok? && r.Err? ==> var ws := scraped.value;
      exists m :: 0 <= m < |ws| && store.entries == old(store.entries) + StampAll(ws[..m], userId)
        && FailsWith(store.entries, ws[m], userId, username, breakOnDuplicates, lookupFault, saveFault, r.error)
  {
    if scraped.Err? {
      return Err(scraped.error);
    }
    var watches := scraped.value;
    if |watches| == 0 {
      return Ok([]);
    }
    r := SaveLoop(store, watches, userId, username, breakOnDuplicates, lookupFault, saveFault);
  }

  /** `syncWatchesForPage`: scrape the page, numbered from `syncCount`,
      then save its watches. What it saves is appended to the store and
      numbered consecutively from `syncCount + 1`, and with a truthy
      `maxSync` it never takes the total past it. */
  method SyncWatchesForPage(store: FilmEntryStore, fetched: Result<seq<WatchItem>, Thrown>, filmPage: FilmPages,
                            parseDate: DateParser, collectionDate: DateValue, syncCount: nat, maxSync: Option<int>,
                            userId: int, username: string, breakOnDuplicates: bool, lookupFault: LookupFaults, saveFault: SaveFaults)
    returns (r: Result<seq<FilmEntry>, Thrown>)
    modifies store
    ensures PageSave(r, store.entries)
         == SavePage(old(store.entries), ScrapedPage(fetched, filmPage, parseDate, collectionDate, syncCount, maxSync),
                     userId, username, breakOnDuplicates, lookupFault, saveFault)
    ensures fetched.Err? ==> r == Err(fetched.error) && store.entries == old(store.entries)
    ensures r.Ok? ==> fetched.Ok? && forall k :: 0 <= k < |r.value| ==>
      && k < |fetched.value| && WatchEntry(fetched.value[k], filmPage, parseDate).Ok?
      && r.value[k] == Stamp(NumberedWatch(WatchEntry(fetched.value[k], filmPage, parseDate).value,
                                           collectionDate, syncCount, k), userId)
    ensures r.Err? && fetched.Ok? ==>
      var scraped := ScrapedPage(fetched, filmPage, parseDate, collectionDate, syncCount, maxSync);
      || (scraped.Err? && r.error == scraped.error && store.entries == old(store.entries))
      || (scraped.Ok? && (exists m :: 0 <= m < |scraped.value|
                              && store.entries == old(store.entries) + StampAll(scraped.value[..m], userId)
                              && FailsWith(store.entries, scraped.value[m], userId, username, breakOnDuplicates,
                                           lookupFault, saveFault, r.error)))
    ensures r.Ok? ==> store.entries == old(store.entries) + r.value
    ensures r.Err? ==> old(store.entries) <= store.entries
    ensures r.Ok? ==> forall k :: 0 <= k < |r.value| ==>
      && r.value[k].sortId == Some(syncCount + 1 + k)
      && r.value[k].userId == Some(userId)
      && r.value[k].date == Some(collectionDate)
    ensures r.Ok? && Capped(maxSync) ==> |r.value| == 0 || syncCount + |r.value| <= maxSync.value
    ensures r.Ok? && !breakOnDuplicates && fetched.Ok? ==>
      |r.value| == WatchLimit(|fetched.value|, syncCount, maxSync)
  {
    var scraped := ScrapeWatchesByPage(fetched, filmPage, parseDate, collectionDate, syncCount, maxSync);
    r := SavePageWatches(store, scraped, userId, username, breakOnDuplicates, lookupFault, saveFault);
    if r.Err? && scraped.Ok? {
      ghost var m :| 0 <= m < |scraped.value| && store.entries == old(store.entries) + StampAll(scraped.value[..m], userId);
      assert old(store.entries) <= store.entries;
    }
  }

  /** The duplicate-mode setting of a walk. */
  datatype DuplicateConfig = DuplicateConfig(active: bool, startOnPage: Option<int>)

  /** Whether duplicates end page `page`: the mode is active and no page
      (absent or zero) or this very page is named. */
  predicate BreakOnPage(config: DuplicateConfig, page: int) {
    config.active && (config.startOnPage.None? || config.startOnPage.value == 0 || config.startOnPage.value == page)
  }

  /** `checkUserId`: the first user with that id, else a
      `SyncLetterboxdError` with nothing synced. */
  function CheckUserId(rows: seq<User>, userId: int): (r: Result<User, Thrown>)
    ensures r.Ok? <==> exists k :: 0 <= k < |rows| && rows[k].id == userId
    ensures r.Ok? ==> r.value.id == userId && r.value in rows
    ensures r.Err? ==> r.error == Raised(SyncLetterboxdError("User does not exist", [], None))
  {
    match FirstMatch(rows, (u: User) => u.id == userId)
    case None => Err(Raised(SyncLetterboxdError("User does not exist", [], None)))
    case Some(i) => Ok(rows[i])
  }

  /** The walk's catch block: an `Error` propagates unchanged; a string,
      or anything else, becomes a `SyncLetterboxdError` carrying what was
      synced so far and the username. */
  function Rethrown(t: Thrown, synced: seq<FilmEntry>, username: string): (e: Thrown)
    ensures e.Raised?
    ensures t.Raised? ==> e == t
    ensures t.RaisedString? ==> e == Raised(SyncLetterboxdError(t.text, synced, Some(username)))
    ensures t.RaisedOther? ==> e == Raised(SyncLetterboxdError("Unknown error occurred", synced, Some(username)))
  {
    match t
    case Raised(_) => t
    case RaisedString(s) => Raised(SyncLetterboxdError(s, synced, Some(username)))
    case RaisedOther => Raised(SyncLetterboxdError("Unknown error occurred", synced, Some(username)))
  }

  /** What a finished walk returns. */
  datatype SyncedWatches = SyncedWatches(watches: seq<FilmEntry>, userId: int, username: string)

  /** The rows `setLastEntriesUpdated(userId)` leaves. */
  predicate StampedUpdate(before: seq<User>, after: seq<User>, userId: int, now: int) {
    && |after| == |before|
    && forall k :: 0 <= k < |after| ==>
         after[k] == if before[k].id == userId then before[k].(lastEntriesUpdate := Some(now)) else before[k]
  }

  /** Watches numbered 1, 2, … by the user at the date. */
  predicate Numbered(ws: seq<FilmEntry>, userId: int, date: DateValue) {
    forall j :: 0 <= j < |ws| ==>
      ws[j].sortId == Some(j + 1) && ws[j].userId == Some(userId) && ws[j].date == Some(date)
  }

  /** A page numbered on from the running total keeps the numbering
      consecutive. */
  lemma NumberedAppend(synced: seq<FilmEntry>, more: seq<FilmEntry>, userId: int, date: DateValue)
    requires Numbered(synced, userId, date)
    requires forall k :: 0 <= k < |more| ==>
      more[k].sortId == Some(|synced| + 1 + k) && more[k].userId == Some(userId) && more[k].date == Some(date)
    ensures Numbered(synced + more, userId, date)
  {
    forall j | 0 <= j < |synced + more|
      ensures (synced + more)[j].sortId == Some(j + 1)
    {
      if j >= |synced| {
        assert (synced + more)[j] == more[j - |synced|];
      }
    }
  }

  /** What stays fixed across one user's walk over the pages. */
  datatype WalkEnv = WalkEnv(userId: int, username: string, config: DuplicateConfig, maxSync: Option<int>,
                             lastPage: int, pages: WatchPages, filmPage: FilmPages, parseDate: DateParser,
                             collectionDate: DateValue, lookupFault: LookupFaults, saveFault: SaveFaults)

  /** The walk from page `page` on, `synced` being what earlier pages
      synced and `entries` the film-entry table they left. Each page is
      scraped numbered from the running total and saved; a page's error is
      rethrown with what was synced before it; an empty page, a truthy
      `maxSync` reached or passing the last page ends the walk. */
  function WatchesWalk(env: WalkEnv, entries: seq<FilmEntry>, synced: seq<FilmEntry>, page: int): PageSave
    decreases env.lastPage - page
  {
    if page > env.lastPage then PageSave(Ok(synced), entries)
    else
      var out := SavePage(entries, ScrapedPage(env.pages(page), env.filmPage, env.parseDate, env.collectionDate,
                                               |synced|, env.maxSync),
                          env.userId, env.username, BreakOnPage(env.config, page), env.lookupFault, env.saveFault);
      match out.result
      case Err(t) => PageSave(Err(Rethrown(t, synced, env.username)), out.entries)
      case Ok(forPage) =>
        if |forPage| == 0 then PageSave(Ok(synced), out.entries)
        else if Capped(env.maxSync) && |synced + forPage| >= env.maxSync.value then
          PageSave(Ok(synced + forPage), out.entries)
        else WatchesWalk(env, out.entries, synced + forPage, page + 1)
  }

  /** What a user's walk gives: its outcome and the film-entry table it
      leaves. */
  datatype SyncRun = SyncRun(result: Result<SyncedWatches, Thrown>, entries: seq<FilmEntry>)

  /** `syncUserWatches` as a value: an unknown user fails before any page
      is read; otherwise the walk starts at page 1, dated `now`. */
  function UserWatchesRun(rows: seq<User>, entries: seq<FilmEntry>, userId: int, config: DuplicateConfig,
                          maxSync: Option<int>, lastPage: int, pages: WatchPages, filmPage: FilmPages,
                          parseDate: DateParser, lookupFault: LookupFaults, saveFault: SaveFaults, now: int): SyncRun
  {
    match CheckUserId(rows, userId)
    case Err(t) => SyncRun(Err(t), entries)
    case Ok(user) =>
      var username := user.details.username;
      var env := WalkEnv(userId, username, config, maxSync, lastPage, pages, filmPage, parseDate, Instant(now),
                         lookupFault, saveFault);
      var walk := WatchesWalk(env, entries, [], 1);
      SyncRun(match walk.result
              case Err(t) => Err(t)
              case Ok(ws) => Ok(SyncedWatches(ws, userId, username)),
              walk.entries)
  }

  /** One page of the walk: the page is synced numbered from the running
      total, and the walk from it is what the page's outcome decides. */
  method WalkTurn(store: FilmEntryStore, env: WalkEnv, synced: seq<FilmEntry>, page: int)
    returns (forPage: Result<seq<FilmEntry>, Thrown>)
    requires page <= env.lastPage
    requires Numbered(synced, env.userId, env.collectionDate)
    modifies store
    ensures WatchesWalk(env, old(store.entries), synced, page)
         == match forPage
            case Err(t) => PageSave(Err(Rethrown(t, synced, env.username)), store.entries)
            case Ok(ws) =>
              if |ws| == 0 then PageSave(Ok(synced), store.entries)
              else if Capped(env.maxSync) && |synced + ws| >= env.maxSync.value then
                PageSave(Ok(synced + ws), store.entries)
              else WatchesWalk(env, store.entries, synced + ws, page + 1)
    ensures forPage.Err? ==> old(store.entries) <= store.entries
    ensures forPage.Ok? ==> store.entries == old(store.entries) + forPage.value
    ensures forPage.Ok? ==> Numbered(synced + forPage.value, env.userId, env.collectionDate)
    ensures forPage.Ok? && Capped(env.maxSync) ==>
      |forPage.value| == 0 || |synced + forPage.value| <= env.maxSync.value
  {
    forPage := SyncWatchesForPage(store, env.pages(page), env.filmPage, env.parseDate, env.collectionDate,
                                  |synced|, env.maxSync, env.userId, env.username,
                                  BreakOnPage(env.config, page), env.lookupFault, env.saveFault);
    if forPage.Ok? {
      NumberedAppend(synced, forPage.value, env.userId, env.collectionDate);
    }
  }

  /** The page loop of `syncUserWatches` with its catch block: pages 1
      to `env.lastPage` in order, each numbered from the running total. */
  method WalkPages(store: FilmEntryStore, env: WalkEnv) returns (r: Result<seq<FilmEntry>, Thrown>)
    modifies store
    ensures PageSave(r, store.entries) == WatchesWalk(env, old(store.entries), [], 1)
    ensures r.Err? ==> r.error.Raised? && old(store.entries) <= store.entries
    ensures r.Ok? ==> store.entries == old(store.entries) + r.value
    ensures r.Ok? ==> Numbered(r.value, env.userId, env.collectionDate)
    ensures r.Ok? && Capped(env.maxSync) ==> |r.value| == 0 || |r.value| <= env.maxSync.value
  {
    var synced: seq<FilmEntry> := [];
    var page := 1;
    while page <= env.lastPage
      invariant WatchesWalk(env, store.entries, synced, page) == WatchesWalk(env, old(store.entries), [], 1)
      invariant store.entries == old(store.entries) + synced
      invariant Numbered(synced, env.userId, env.collectionDate)
      invariant Capped(env.maxSync) ==> |synced| == 0 || |synced| <= env.maxSync.value
      decreases env.lastPage - page
    {
      var forPage := WalkTurn(store, env, synced, page);
      if forPage.Err? {
        return Err(Rethrown(forPage.error, synced, env.username));
      }
      AppendAssoc(old(store.entries), synced, forPage.value);
      if |forPage.value| == 0 {
        break;
      }
      synced := synced + forPage.value;
      if Capped(env.maxSync) && |synced| >= env.maxSync.value {
        break;
      }
      page := page + 1;
    }
    r := Ok(synced);
  }

  /** `syncUserWatches`. `lastWatchesPage` is what `findLastFilmsPage`
      reports and `pages(p)` the outcome of fetching page `p`. Synced
      watches are numbered 1, 2, … across pages, because each page is
      numbered from the running total; with a truthy `maxSync` the total
      never exceeds it. Only a walk without error stamps the user's
      `lastEntriesUpdate`. */
  method SyncUserWatches(users: UserRepository, store: FilmEntryStore, userId: int, config: DuplicateConfig,
                         maxSync: Option<int>, lastWatchesPage: int, pages: WatchPages, filmPage: FilmPages,
                         parseDate: DateParser, lookupFault: LookupFaults, saveFault: SaveFaults, now: int)
    returns (r: Result<SyncedWatches, Thrown>)
    modifies users, store
    ensures SyncRun(r, store.entries) == UserWatchesRun(old(users.rows), old(store.entries), userId, config, maxSync,
                                                        lastWatchesPage, pages, filmPage, parseDate, lookupFault, saveFault, now)
    ensures CheckUserId(old(users.rows), userId).Err? ==>
      r == Err(CheckUserId(old(users.rows), userId).error) && store.entries == old(store.entries)
    ensures r.Err? ==> r.error.Raised? && users.rows == old(users.rows)
    ensures r.Err? ==> old(store.entries) <= store.entries
    ensures r.Ok? ==> (CheckUserId(old(users.rows), userId).Ok?
      && r.value.username == CheckUserId(old(users.rows), userId).value.details.username
      && r.value.userId == userId)
    ensures r.Ok? ==> store.entries == old(store.entries) + r.value.watches
    ensures r.Ok? ==> Numbered(r.value.watches, userId, Instant(now))
    ensures r.Ok? && Capped(maxSync) ==> |r.value.watches| == 0 || |r.value.watches| <= maxSync.value
    ensures r.Ok? ==> StampedUpdate(old(users.rows), users.rows, userId, now)
  {
    var user := CheckUserId(users.rows, userId);
    if user.Err? {
      return Err(user.error);
    }
    var username := user.value.details.username;
    var env := WalkEnv(userId, username, config, maxSync, lastWatchesPage, pages, filmPage, parseDate,
                       Instant(now), lookupFault, saveFault);
    var synced := WalkPages(store, env);
    if synced.Err? {
      return Err(synced.error);
    }
    users.SetLastEntriesUpdated(userId, now);
    r := Ok(SyncedWatches(synced.value, userId, username));
  }

  /** `syncRecentUserWatches`: at most `maxSync` watches, 30 when it is
      not given, without duplicate checking. */
  method SyncRecentUserWatches(users: UserRepository, store: FilmEntryStore, userId: int, maxSync: Option<int>,
                               lastWatchesPage: int, pages: WatchPages, filmPage: FilmPages,
                               parseDate: DateParser, lookupFault: LookupFaults, saveFault: SaveFaults, now: int)
    returns (r: Result<SyncedWatches, Thrown>)
    modifies users, store
    ensures SyncRun(r, store.entries)
         == UserWatchesRun(old(users.rows), old(store.entries), userId, DuplicateConfig(false, None),
                           if maxSync.None? then Some(30) else maxSync, lastWatchesPage, pages, filmPage,
                           parseDate, lookupFault, saveFault, now)
    ensures r.Ok? && maxSync.None? ==> |r.value.watches| <= 30
    ensures r.Ok? ==> store.entries == old(store.entries) + r.value.watches
    ensures r.Ok? ==> StampedUpdate(old(users.rows), users.rows, userId, now)
    ensures r.Err? ==> users.rows == old(users.rows)
  {
    var limit := if maxSync.None? then Some(30) else maxSync;
    r := SyncUserWatches(users, store, userId, DuplicateConfig(false, None), limit, lastWatchesPage,
                         pages, filmPage, parseDate, lookupFault, saveFault, now);
  }

  /** `syncAllUserWatches`: no limit and no duplicate checking, so the
      walk ends only at an empty page, the last page or an error, and
      every page it saves without error is saved in full (`SavePageInFull`
      with `WatchLimit` at no cap). */
  method SyncAllUserWatches(users: UserRepository, store: FilmEntryStore, userId: int,
                            lastWatchesPage: int, pages: WatchPages, filmPage: FilmPages,
                            parseDate: DateParser, lookupFault: LookupFaults, saveFault: SaveFaults, now: int)
    returns (r: Result<SyncedWatches, Thrown>)
    modifies users, store
    ensures SyncRun(r, store.entries)
         == UserWatchesRun(old(users.rows), old(store.entries), userId, DuplicateConfig(false, None), None,
                           lastWatchesPage, pages, filmPage, parseDate, lookupFault, saveFault, now)
    ensures r.Ok? ==> store.entries == old(store.entries) + r.value.watches
    ensures r.Ok? ==> forall j :: 0 <= j < |r.value.watches| ==> r.value.watches[j].sortId == Some(j + 1)
    ensures r.Ok? ==> StampedUpdate(old(users.rows), users.rows, userId, now)
    ensures r.Err? ==> users.rows == old(users.rows)
  {
    r := SyncUserWatches(users, store, userId, DuplicateConfig(false, None), None, lastWatchesPage,
                         pages, filmPage, parseDate, lookupFault, saveFault, now);
  }

  /** Both public entry points leave duplicate checking off on every page. */
  lemma EntryPointsNeverBreakOnDuplicates(page: int)
    ensures !BreakOnPage(DuplicateConfig(false, None), page)
  {
  }

  /** With duplicate checking active and a start page named, only that
      page is checked. */
  lemma StartPageOnlyChecked(start: int, page: int)
    requires start != 0
    ensures BreakOnPage(DuplicateConfig(true, Some(start)), page) <==> page == start
  {
  }
}
