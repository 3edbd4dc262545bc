/** The people jobs of src/lib/managedSyncs/syncPeople.ts: fill in the
    people behind cast or crew roles that have none.

    The roles queries and the people repository's `syncPeople` (which
    fetches and stores the people, returning the ones stored, or throws)
    are parameters. */
module SyncPeople {
  import opened Wrappers
  import opened JsText
  import opened Failures
  import opened DbTypes
  import opened SyncRepo

  /** What `syncPeople` returns. */
  datatype PeopleResult = PeopleResult(peopleIds: seq<int>, syncedCount: nat)

  /** The decimal ids joined with ", ". */
  function JoinIds(ids: seq<int>): string {
    if |ids| == 0 then ""
    else if |ids| == 1 then IntString(ids[0])
    else IntString(ids[0]) + ", " + JoinIds(ids[1..])
  }

  /** The message of a run that synced nobody. */
  function NoPeopleMessage(ids: seq<int>): string {
    "Attempted to sync " + IntString(|ids|) + " people, but 0 were synced. Attempted IDs: " + JoinIds(ids)
  }

  /** The options a run that synced nobody passes to `endSync`. */
  const ZeroSyncedOptions := NoEndOptions.(status := Some(Failed), numSynced := Some(0))

  /** As written, those options record the sync complete: `endSync` takes
      the status from the error message alone and skips a zero count. */
  lemma ZeroSyncedRecordedComplete(base: SyncRow, now: int)
    ensures EndedRow(base, ZeroSyncedOptions, now).status == Complete
    ensures EndedRow(base, ZeroSyncedOptions, now).numSynced == base.numSynced
    ensures EndedRow(base, ZeroSyncedOptions, now).errorMessage == base.errorMessage
  {
  }

  /** The options that record the failure the run reports: its message. */
  function ZeroSyncedOptionsCorrected(ids: seq<int>): EndOptions {
    ZeroSyncedOptions.(errorMessage := Some(NoPeopleMessage(ids)))
  }

  /** With the message passed, the sync is recorded failed, carrying the
      message the run throws. */
  lemma ZeroSyncedRecordedFailed(base: SyncRow, ids: seq<int>, now: int)
    ensures EndedRow(base, ZeroSyncedOptionsCorrected(ids), now).status == Failed
    ensures EndedRow(base, ZeroSyncedOptionsCorrected(ids), now).errorMessage == Some(NoPeopleMessage(ids))
    ensures EndedRow(base, ZeroSyncedOptionsCorrected(ids), now).finished == Some(now)
  {
    assert NoPeopleMessage(ids)[0] == 'A';
  }

  /** `syncPeople`. `peopleSync` stands for the people repository's
      `syncPeople`. With no ids nothing is saved. Otherwise the sync is
      saved; when the repository throws, the run throws the same and the
      sync stays saved but not ended. Otherwise it is ended: complete
      with the count when someone was synced; with the options above
      when nobody was, and the run then throws. */
  method SyncPeople(repo: SyncRepository, sync: Sync, peopleIds: seq<int>,
                    peopleSync: seq<int> -> Result<seq<int>, Thrown>, endNow: int)
    returns (r: Result<PeopleResult, Thrown>)
    requires repo.Valid()
    modifies repo, sync
    ensures repo.Valid()
    ensures |peopleIds| == 0 ==>
      && r == Ok(PeopleResult(peopleIds, 0))
      && repo.rows == old(repo.rows) && sync.Row() == old(sync.Row())
    ensures |peopleIds| > 0 ==>
      && sync.id.Some?
      && (old(sync.id).Some? ==> sync.id == old(sync.id))
      && (old(sync.id).None? ==> sync.id.value !in old(repo.rows))
      && repo.rows == old(repo.rows)[sync.id.value := sync.Row()]
    ensures |peopleIds| > 0 ==> var answer := peopleSync(peopleIds);
      && (answer.Err? ==> r == Err(answer.error) && sync.Row() == old(sync.Row()).(id := sync.id))
      && (answer.Ok? && |answer.value| > 0 ==>
            && r == Ok(PeopleResult(peopleIds, |answer.value|))
            && sync.Row() == EndedRow(old(sync.Row()), CompleteOptions(|answer.value|, None), endNow).(id := sync.id))
      && (answer.Ok? && |answer.value| == 0 ==>
            && r == Err(Raised(PlainError(NoPeopleMessage(peopleIds))))
            && sync.Row() == EndedRow(old(sync.Row()), ZeroSyncedOptions, endNow).(id := sync.id))
  {
    if |peopleIds| == 0 {
      return Ok(PeopleResult(peopleIds, 0));
    }
    repo.Save(sync);
    var answer := peopleSync(peopleIds);
    if answer.Err? {
      return Err(answer.error);
    }
    var synced := answer.value;
    if |synced| > 0 {
      repo.EndSync(sync, CompleteOptions(|synced|, None), endNow);
    } else {
      var message := NoPeopleMessage(peopleIds);
      repo.EndSync(sync, ZeroSyncedOptions, endNow);
      return Err(Raised(PlainError(message)));
    }
    r := Ok(PeopleResult(peopleIds, |synced|));
  }

  /** What a roles job returns and the row it stores under the id `id`. */
  datatype RoleRun = RoleRun(result: Result<PeopleResult, Thrown>, row: SyncRow)

  /** A roles job for `syncType` as a value. With no ids the stored row is
      the untyped one `queueSync` saved; otherwise the row is typed and
      saved, then ended complete when someone was synced, ended with the
      ignored failure options when nobody was, and left queued when the
      people repository throws. */
  function RolePeopleRun(syncType: SyncType, missing: seq<int>, peopleSync: seq<int> -> Result<seq<int>, Thrown>,
                         id: nat, endNow: int): (r: RoleRun)
    ensures r.result.Ok? ==> r.result.value.peopleIds == missing
    ensures r.result.Ok? && |missing| > 0 ==> peopleSync(missing).Ok? && r.result.value.syncedCount == |peopleSync(missing).value| > 0
    ensures r.result.Err? <==> |missing| > 0 && (peopleSync(missing).Err? || |peopleSync(missing).value| == 0)
    ensures r.row.id == Some(id)
  {
    if |missing| == 0 then RoleRun(Ok(PeopleResult(missing, 0)), NewRow(SystemTrigger, None, None).(id := Some(id)))
    else
      var queued := QueuedRow(syncType, id);
      match peopleSync(missing)
      case Err(t) => RoleRun(Err(t), queued)
      case Ok(people) =>
        if |people| > 0 then
          RoleRun(Ok(PeopleResult(missing, |people|)), EndedRow(queued, CompleteOptions(|people|, None), endNow))
        else RoleRun(Err(Raised(PlainError(NoPeopleMessage(missing)))), EndedRow(queued, ZeroSyncedOptions, endNow))
  }

  /** How a roles job is recorded: a run that synced someone is complete
      with its count and finished at the end time; a run that synced
      nobody throws yet is recorded complete without a count; a run whose
      repository threw leaves its row pending; and with no ids the run
      succeeds on an untyped pending row. The row keeps its id and the
      system trigger throughout. */
  lemma {:induction false} RolePeopleRecorded(syncType: SyncType, missing: seq<int>,
                                              peopleSync: seq<int> -> Result<seq<int>, Thrown>, id: nat, endNow: int)
    ensures var run := RolePeopleRun(syncType, missing, peopleSync, id, endNow);
      && run.row.id == Some(id) && run.row.trigger == SystemTrigger
      && (|missing| == 0 ==> run.result.Ok? && run.row.status == Pending && run.row.syncType.None?)
      && (|missing| > 0 ==> run.row.syncType == Some(syncType))
      && (|missing| > 0 && peopleSync(missing).Err? ==> run.result == Err(peopleSync(missing).error)
                                                        && run.row.status == Pending)
      && (|missing| > 0 && peopleSync(missing).Ok? && |peopleSync(missing).value| > 0 ==>
            && run.result.Ok? && run.result.value.syncedCount == |peopleSync(missing).value|
            && run.row.status == Complete && run.row.numSynced == Some(|peopleSync(missing).value|)
            && run.row.finished == Some(endNow))
      && (|missing| > 0 && peopleSync(missing).Ok? && |peopleSync(missing).value| == 0 ==>
            && run.result == Err(Raised(PlainError(NoPeopleMessage(missing))))
            && run.row.status == Complete && run.row.numSynced.None? && run.row.finished == Some(endNow))
  {
    if |missing| > 0 && peopleSync(missing).Ok? {
      var queued := QueuedRow(syncType, id);
      var n := |peopleSync(missing).value|;
      if n > 0 {
        EndSyncRules(queued, CompleteOptions(n, None), endNow, None);
      } else {
        ZeroSyncedRecordedComplete(queued, endNow);
        EndSyncRules(queued, ZeroSyncedOptions, endNow, None);
      }
    }
  }

  /** `syncCastPeople` / `syncCrewPeople`: queue a system sync, set its
      type (in memory only), and hand the role query's ids to
      `SyncPeople`. */
  method SyncRolePeople(repo: SyncRepository, syncType: SyncType, missingPeople: seq<int>,
                        peopleSync: seq<int> -> Result<seq<int>, Thrown>, now: int, endNow: int)
    returns (r: Result<PeopleResult, Thrown>, sync: Sync)
    requires repo.Valid()
    modifies repo
    ensures repo.Valid() && fresh(sync)
    ensures sync.id.Some? && sync.id.value !in old(repo.rows)
    ensures sync.syncType == Some(syncType)
    ensures r == RolePeopleRun(syncType, missingPeople, peopleSync, sync.id.value, endNow).result
    ensures repo.rows
         == old(repo.rows)[sync.id.value := RolePeopleRun(syncType, missingPeople, peopleSync, sync.id.value, endNow).row]
    ensures |missingPeople| == 0 ==>
      && r == Ok(PeopleResult(missingPeople, 0))
      && repo.rows == old(repo.rows)[sync.id.value := NewRow(SystemTrigger, None, None).(id := sync.id)]
    ensures |missingPeople| > 0 ==> repo.rows == old(repo.rows)[sync.id.value := sync.Row()]
    ensures |missingPeople| > 0 ==> var answer := peopleSync(missingPeople);
      && (answer.Err? ==> r == Err(answer.error) && sync.Row() == QueuedRow(syncType, sync.id.value))
      && (answer.Ok? && |answer.value| > 0 ==>
            && r == Ok(PeopleResult(missingPeople, |answer.value|))
            && sync.Row() == EndedRow(QueuedRow(syncType, sync.id.value), CompleteOptions(|answer.value|, None), endNow))
      && (answer.Ok? && |answer.value| == 0 ==>
            && r == Err(Raised(PlainError(NoPeopleMessage(missingPeople))))
            && sync.Row() == EndedRow(QueuedRow(syncType, sync.id.value), ZeroSyncedOptions, endNow))
  {
    var inProgress;
    sync, inProgress := repo.QueueSync(Some(SystemTrigger), None, None, now);
    sync.syncType := Some(syncType);
    r := SyncPeople(repo, sync, missingPeople, peopleSync, endNow);
    if |missingPeople| == 0 {
      assert repo.rows == old(repo.rows)[sync.id.value := NewRow(SystemTrigger, None, None).(id := sync.id)];
    } else {
      SavedTwice(old(repo.rows), sync.id.value, NewRow(SystemTrigger, None, None).(id := sync.id), sync.Row());
      assert RolePeopleRun(syncType, missingPeople, peopleSync, sync.id.value, endNow).row == sync.Row();
    }
  }

  /** `syncCastPeople`: the roles job for the cast. */
  method SyncCastPeople(repo: SyncRepository, missingCastPeople: seq<int>, peopleSync: seq<int> -> Result<seq<int>, Thrown>,
                        now: int, endNow: int)
    returns (r: Result<PeopleResult, Thrown>, sync: Sync)
    requires repo.Valid()
    modifies repo
    ensures repo.Valid() && fresh(sync) && sync.syncType == Some(MoviesCast)
    ensures sync.id.Some? && sync.id.value !in old(repo.rows)
    ensures |missingCastPeople| > 0 ==> repo.rows == old(repo.rows)[sync.id.value := sync.Row()]
    ensures r == RolePeopleRun(MoviesCast, missingCastPeople, peopleSync, sync.id.value, endNow).result
    ensures repo.rows
         == old(repo.rows)[sync.id.value := RolePeopleRun(MoviesCast, missingCastPeople, peopleSync, sync.id.value, endNow).row]
  {
    r, sync := SyncRolePeople(repo, MoviesCast, missingCastPeople, peopleSync, now, endNow);
  }

  /** `syncCrewPeople`: the roles job for the crew. */
  method SyncCrewPeople(repo: SyncRepository, missingCrewPeople: seq<int>, peopleSync: seq<int> -> Result<seq<int>, Thrown>,
                        now: int, endNow: int)
    returns (r: Result<PeopleResult, Thrown>, sync: Sync)
    requires repo.Valid()
    modifies repo
    ensures repo.Valid() && fresh(sync) && sync.syncType == Some(MoviesCrew)
    ensures sync.id.Some? && sync.id.value !in old(repo.rows)
    ensures |missingCrewPeople| > 0 ==> repo.rows == old(repo.rows)[sync.id.value := sync.Row()]
    ensures r == RolePeopleRun(MoviesCrew, missingCrewPeople, peopleSync, sync.id.value, endNow).result
    ensures repo.rows
         == old(repo.rows)[sync.id.value := RolePeopleRun(MoviesCrew, missingCrewPeople, peopleSync, sync.id.value, endNow).row]
  {
    r, sync := SyncRolePeople(repo, MoviesCrew, missingCrewPeople, peopleSync, now, endNow);
  }
}
