/** The sync lifecycle tracker of src/db/repositories/SyncRepo.ts.
    A `Sync` entity object is changed in place and then saved; the store
    is a map from generated id to the saved row. Times are milliseconds
    passed in as "now". */
module SyncRepo {
  import opened Wrappers
  import opened DbTypes
  import opened Failures

  /** The advisory overlap window of `queueSync`, in minutes. */
  const OVERLAP_MINUTES := 10

  /** `minutesAgo(min, now)`: the instant `min` minutes before `now`. */
  function MinutesAgo(min: int, now: int): (r: int)
    ensures r <= now <==> min >= 0
  {
    now - min * 60 * 1000
  }

  /** A row of the sync table, and the state of a `Sync` entity. */
  datatype SyncRow = SyncRow(
    id: Option<nat>,
    trigger: SyncTrigger,
    syncType: Option<SyncType>,
    username: Option<string>,
    status: SyncStatus,
    started: Option<int>,
    finished: Option<int>,
    numSynced: Option<nat>,
    secondaryId: Option<string>,
    errorMessage: Option<string>)

  /** What `create({..})` gives: a pending, never started, unsaved sync. */
  function NewRow(trigger: SyncTrigger, syncType: Option<SyncType>, username: Option<string>): SyncRow {
    SyncRow(None, trigger, syncType, username, Pending, None, None, None, None, None)
  }

  /** The fields `endSync` accepts (`Partial<Sync>`); `status` is accepted
      and ignored. */
  datatype EndOptions = EndOptions(
    syncType: Option<SyncType>,
    numSynced: Option<nat>,
    secondaryId: Option<string>,
    errorMessage: Option<string>,
    status: Option<SyncStatus>)

  const NoEndOptions := EndOptions(None, None, None, None, None)

  /** JavaScript truthiness of an optional string and an optional count. */
  predicate TruthyText(s: Option<string>) {
    s.Some? && s.value != ""
  }

  predicate TruthyCount(n: Option<nat>) {
    n.Some? && n.value != 0
  }

  /** `startSync` on an entity. */
  function StartedRow(r: SyncRow, now: int): SyncRow {
    r.(status := InProgress, started := Some(now))
  }

  /** `skipSync` on an entity. */
  function SkippedRow(r: SyncRow, now: int): SyncRow {
    r.(status := Skipped, finished := Some(now), numSynced := Some(0))
  }

  /** `endSync` on an entity. */
  function EndedRow(r: SyncRow, opts: EndOptions, now: int): SyncRow {
    r.(syncType := if opts.syncType.Some? then opts.syncType else r.syncType,
       numSynced := if TruthyCount(opts.numSynced) then opts.numSynced else r.numSynced,
       errorMessage := if TruthyText(opts.errorMessage) then opts.errorMessage else r.errorMessage,
       status := if TruthyText(opts.errorMessage) then Failed else Complete,
       secondaryId := opts.secondaryId,
       finished := Some(now))
  }

  /** `skipSync` sets exactly status, finish time and count. */
  lemma SkipSyncTouchesOnly(r: SyncRow, now: int)
    ensures SkippedRow(r, now).status == Skipped
    ensures SkippedRow(r, now).finished == Some(now) && SkippedRow(r, now).numSynced == Some(0)
    ensures SkippedRow(r, now).(status := r.status, finished := r.finished, numSynced := r.numSynced) == r
  {
  }

  /** Starting twice re-stamps `started` with the later time. */
  lemma StartSyncRestamps(r: SyncRow, t1: int, t2: int)
    ensures StartedRow(StartedRow(r, t1), t2) == StartedRow(r, t2)
    ensures StartedRow(StartedRow(r, t1), t2).started == Some(t2)
  {
  }

  /** The rules of `endSync`: failed iff the error message is truthy,
      always finished, `secondaryId` always overwritten, type and count
      only when truthy, and the `status` option ignored. */
  lemma EndSyncRules(r: SyncRow, opts: EndOptions, now: int, ignored: Option<SyncStatus>)
    ensures EndedRow(r, opts, now).status == Failed <==> TruthyText(opts.errorMessage)
    ensures EndedRow(r, opts, now).status == Complete <==> !TruthyText(opts.errorMessage)
    ensures EndedRow(r, opts, now).finished == Some(now)
    ensures EndedRow(r, opts, now).secondaryId == opts.secondaryId
    ensures opts.numSynced == Some(0) ==> EndedRow(r, opts, now).numSynced == r.numSynced
    ensures opts.syncType.None? ==> EndedRow(r, opts, now).syncType == r.syncType
    ensures EndedRow(r, opts.(status := ignored), now) == EndedRow(r, opts, now)
    ensures EndedRow(r, opts, now).id == r.id && EndedRow(r, opts, now).trigger == r.trigger
  {
  }

  /** The filter of `queueSync`: same trigger, same username (a missing
      username adds no condition, as the store ignores undefined filter
      values), not the new sync itself, started strictly after `minStart`,
      and pending or in progress. The type is not compared. */
  predicate Overlaps(r: SyncRow, selfId: nat, trigger: SyncTrigger, username: Option<string>, minStart: int) {
    && r.trigger == trigger
    && (username.None? || r.username == username)
    && r.id != Some(selfId)
    && r.started.Some? && r.started.value > minStart
    && (r.status == Pending || r.status == InProgress)
  }

  /** The rows `queueSync` reports as in progress. */
  function Overlapping(rows: map<nat, SyncRow>, selfId: nat, trigger: SyncTrigger, username: Option<string>, minStart: int): set<SyncRow> {
    set k | k in rows && Overlaps(rows[k], selfId, trigger, username, minStart) :: rows[k]
  }

  /** The ten-minute window: a row started at `t` is recent iff it started
      less than 600000 ms before `now`; the type never matters. */
  lemma OverlapWindow(r: SyncRow, selfId: nat, now: int, other: Option<SyncType>)
    requires r.started.Some?
    ensures r.started.value > MinutesAgo(OVERLAP_MINUTES, now) <==> now - r.started.value < 600000
    ensures Overlaps(r, selfId, r.trigger, r.username, MinutesAgo(OVERLAP_MINUTES, now))
        <==> Overlaps(r.(syncType := other), selfId, r.trigger, r.username, MinutesAgo(OVERLAP_MINUTES, now))
  {
  }

  /** The rows `clearUnfinished(trigger)` deletes. */
  predicate Unfinished(r: SyncRow, trigger: SyncTrigger) {
    r.trigger == trigger && (r.status == InProgress || r.status == Pending)
  }

  /** The outcome of a managed action: its result carries a count and an
      optional correlation id. */
  datatype ActionResult<T> = ActionResult(value: T, syncedCount: nat, secondaryId: Option<string>)

  /** The options `manageAction` passes to `endSync` for an outcome. */
  function FinishOptions<T>(outcome: Result<ActionResult<T>, Thrown>): EndOptions {
    match outcome
    case Ok(res) => NoEndOptions.(numSynced := Some(res.syncedCount), secondaryId := res.secondaryId)
    case Err(t) => NoEndOptions.(errorMessage := Some(MessageText(t)))
  }

  /** The row `manageAction` leaves for an action outcome. */
  function ManagedRow<T>(base: SyncRow, outcome: Result<ActionResult<T>, Thrown>, startNow: int, endNow: int): SyncRow {
    EndedRow(StartedRow(base, startNow), FinishOptions(outcome), endNow)
  }

  /** Every managed attempt is closed: terminal, finished at the end time,
      started at the start time. It is failed iff the action threw with a
      non-empty message; a success records the action's count (unless it
      is zero) and its correlation id. */
  lemma ManagedRowClosed<T>(base: SyncRow, outcome: Result<ActionResult<T>, Thrown>, startNow: int, endNow: int)
    requires base.errorMessage.None?
    ensures ManagedRow(base, outcome, startNow, endNow).status.IsTerminal()
    ensures ManagedRow(base, outcome, startNow, endNow).finished == Some(endNow)
    ensures ManagedRow(base, outcome, startNow, endNow).started == Some(startNow)
    ensures ManagedRow(base, outcome, startNow, endNow).status == Failed
        <==> outcome.Err? && MessageText(outcome.error) != ""
    ensures ManagedRow(base, outcome, startNow, endNow).status == Failed
        <==> ManagedRow(base, outcome, startNow, endNow).errorMessage.Some?
    ensures outcome.Ok? ==> ManagedRow(base, outcome, startNow, endNow).secondaryId == outcome.value.secondaryId
    ensures outcome.Ok? && outcome.value.syncedCount != 0 ==>
      ManagedRow(base, outcome, startNow, endNow).numSynced == Some(outcome.value.syncedCount)
  {
  }

  /** The row of a system sync that a job queued and then gave its type. */
  function QueuedRow(syncType: SyncType, id: nat): SyncRow {
    NewRow(SystemTrigger, Some(syncType), None).(id := Some(id))
  }

  /** What a job passes to `endSync` when it completes. */
  function CompleteOptions(numSynced: nat, secondaryId: Option<string>): EndOptions {
    NoEndOptions.(status := Some(Complete), numSynced := Some(numSynced), secondaryId := secondaryId)
  }

  /** A queued job that completes is recorded complete, finished, of its
      own type, with its count unless that is zero and with its
      correlation id; it never carries an error message. */
  lemma CompletedJobRow(syncType: SyncType, id: nat, numSynced: nat, secondaryId: Option<string>, now: int)
    ensures var r := EndedRow(QueuedRow(syncType, id), CompleteOptions(numSynced, secondaryId), now);
      && r.status == Complete && r.finished == Some(now) && r.errorMessage.None?
      && r.syncType == Some(syncType) && r.id == Some(id) && r.trigger == SystemTrigger
      && r.numSynced == (if numSynced != 0 then Some(numSynced) else None)
      && r.secondaryId == secondaryId
  {
  }

  /** Saving a row twice under one id keeps only the second. */
  lemma SavedTwice(rows: map<nat, SyncRow>, id: nat, first: SyncRow, second: SyncRow)
    ensures rows[id := first][id := second] == rows[id := second]
  {
  }

  /** The in-memory `Sync` entity. */
  class Sync {
    var id: Option<nat>
    var trigger: SyncTrigger
    var syncType: Option<SyncType>
    var username: Option<string>
    var status: SyncStatus
    var started: Option<int>
    var finished: Option<int>
    var numSynced: Option<nat>
    var secondaryId: Option<string>
    var errorMessage: Option<string>

    /** The entity's current field values. */
    function Row(): SyncRow
      reads this
    {
      SyncRow(id, trigger, syncType, username, status, started, finished, numSynced, secondaryId, errorMessage)
    }

    /** `create({ trigger, type, username })`. */
    constructor (trigger: SyncTrigger, syncType: Option<SyncType>, username: Option<string>)
      ensures Row() == NewRow(trigger, syncType, username)
    {
      this.id := None;
      this.trigger := trigger;
      this.syncType := syncType;
      this.username := username;
      this.status := Pending;
      this.started := None;
      this.finished := None;
      this.numSynced := None;
      this.secondaryId := None;
      this.errorMessage := None;
    }

    /** Copies a row's values into the entity, keeping its id. */
    method SetFields(r: SyncRow)
      modifies this
      ensures Row() == r.(id := old(id))
    {
      trigger, syncType, username, status := r.trigger, r.syncType, r.username, r.status;
      started, finished, numSynced := r.started, r.finished, r.numSynced;
      secondaryId, errorMessage := r.secondaryId, r.errorMessage;
    }
  }

  /** The sync table. */
  class SyncRepository {
    var rows: map<nat, SyncRow>
    var nextId: nat

    /** Every row is stored under its own id, below the next fresh id. */
    ghost predicate Valid()
      reads this
    {
      forall k :: k in rows ==> k < nextId && rows[k].id == Some(k)
    }

    constructor ()
      ensures Valid() && rows == map[]
    {
      rows := map[];
      nextId := 0;
    }

    /** `save(sync)`: an unsaved entity gets a fresh id; the row under the
        entity's id becomes its current values. */
    method Save(sync: Sync)
      requires Valid()
      modifies this, sync`id
      ensures Valid()
      ensures sync.id.Some?
      ensures old(sync.id).Some? ==> sync.id == old(sync.id)
      ensures old(sync.id).None? ==> sync.id.value !in old(rows)
      ensures sync.Row() == old(sync.Row()).(id := sync.id)
      ensures rows == old(rows)[sync.id.value := sync.Row()]
    {
      if sync.id.None? {
        sync.id := Some(nextId);
        nextId := nextId + 1;
      } else if sync.id.value >= nextId {
        nextId := sync.id.value + 1;
      }
      rows := rows[sync.id.value := sync.Row()];
    }

    /** `queueSync`: saves a new pending sync, then reports the other
        recent pending or in-progress syncs of the same trigger and
        username. The report is advisory; nothing is blocked. */
    method QueueSync(trigger: Option<SyncTrigger>, username: Option<string>, syncType: Option<SyncType>, now: int)
      returns (sync: Sync, inProgress: set<SyncRow>)
      requires Valid()
      modifies this
      ensures Valid() && fresh(sync)
      ensures sync.id.Some? && sync.id.value !in old(rows)
      ensures sync.Row() == NewRow(trigger.GetOr(SystemTrigger), syncType, username).(id := sync.id)
      ensures rows == old(rows)[sync.id.value := sync.Row()]
      ensures inProgress == Overlapping(rows, sync.id.value, trigger.GetOr(SystemTrigger), username, MinutesAgo(OVERLAP_MINUTES, now))
      ensures sync.Row() !in inProgress
    {
      sync := new Sync(trigger.GetOr(SystemTrigger), syncType, username);
      Save(sync);
      var minStart := MinutesAgo(OVERLAP_MINUTES, now);
      inProgress := Overlapping(rows, sync.id.value, trigger.GetOr(SystemTrigger), username, minStart);
    }

    /** The opening of a system job: `queueSync({ trigger: SYSTEM })`, then
        the job's type set on the entity and saved. */
    method QueueTyped(syncType: SyncType, now: int) returns (sync: Sync)
      requires Valid()
      modifies this
      ensures Valid() && fresh(sync)
      ensures sync.id.Some? && sync.id.value !in old(rows)
      ensures sync.Row() == QueuedRow(syncType, sync.id.value)
      ensures rows == old(rows)[sync.id.value := sync.Row()]
    {
      var inProgress;
      sync, inProgress := QueueSync(Some(SystemTrigger), None, None, now);
      sync.syncType := Some(syncType);
      Save(sync);
    }

    /** `skipSync`. */
    method SkipSync(sync: Sync, now: int)
      requires Valid()
      modifies this, sync
      ensures Valid() && sync.id.Some?
      ensures old(sync.id).Some? ==> sync.id == old(sync.id)
      ensures old(sync.id).None? ==> sync.id.value !in old(rows)
      ensures sync.Row() == SkippedRow(old(sync.Row()), now).(id := sync.id)
      ensures rows == old(rows)[sync.id.value := sync.Row()]
    {
      sync.SetFields(SkippedRow(sync.Row(), now));
      Save(sync);
    }

    /** `startSync`. */
    method StartSync(sync: Sync, now: int)
      requires Valid()
      modifies this, sync
      ensures Valid() && sync.id.Some?
      ensures old(sync.id).Some? ==> sync.id == old(sync.id)
      ensures old(sync.id).None? ==> sync.id.value !in old(rows)
      ensures sync.Row() == StartedRow(old(sync.Row()), now).(id := sync.id)
      ensures rows == old(rows)[sync.id.value := sync.Row()]
    {
      sync.SetFields(StartedRow(sync.Row(), now));
      Save(sync);
    }

    /** `endSync`. */
    method EndSync(sync: Sync, opts: EndOptions, now: int)
      requires Valid()
      modifies this, sync
      ensures Valid() && sync.id.Some?
      ensures old(sync.id).Some? ==> sync.id == old(sync.id)
      ensures old(sync.id).None? ==> sync.id.value !in old(rows)
      ensures sync.Row() == EndedRow(old(sync.Row()), opts, now).(id := sync.id)
      ensures rows == old(rows)[sync.id.value := sync.Row()]
    {
      sync.SetFields(EndedRow(sync.Row(), opts, now));
      Save(sync);
    }

    /** `manageAction`: creates and starts a sync, lets the action run
        (its outcome is the parameter), ends the sync exactly once with the
        action's count and correlation id or with the error's message, and
        hands back the outcome unchanged (a thrown error is re-thrown). */
    method ManageAction<T>(trigger: SyncTrigger, syncType: SyncType, outcome: Result<ActionResult<T>, Thrown>, startNow: int, endNow: int)
      returns (r: Result<ActionResult<T>, Thrown>, sync: Sync)
      requires Valid()
      modifies this
      ensures Valid() && fresh(sync)
      ensures r == outcome
      ensures sync.id.Some? && sync.id.value !in old(rows)
      ensures sync.Row() == ManagedRow(NewRow(trigger, Some(syncType), None), outcome, startNow, endNow).(id := sync.id)
      ensures rows == old(rows)[sync.id.value := sync.Row()]
    {
      sync := Begin(trigger, syncType, startNow);
      Finish(sync, outcome, endNow);
      r := outcome;
    }

    /** The part of `manageAction` before the action runs. */
    method Begin(trigger: SyncTrigger, syncType: SyncType, startNow: int) returns (sync: Sync)
      requires Valid()
      modifies this
      ensures Valid() && fresh(sync)
      ensures sync.id.Some? && sync.id.value !in old(rows)
      ensures sync.Row() == StartedRow(NewRow(trigger, Some(syncType), None), startNow).(id := sync.id)
      ensures rows == old(rows)[sync.id.value := sync.Row()]
    {
      sync := new Sync(trigger, Some(syncType), None);
      StartSync(sync, startNow);
    }

    /** The part of `manageAction` after the action ran: one `endSync`. */
    method Finish<T>(sync: Sync, outcome: Result<ActionResult<T>, Thrown>, endNow: int)
      requires Valid() && sync.id.Some?
      modifies this, sync
      ensures Valid() && sync.id == old(sync.id)
      ensures sync.Row() == EndedRow(old(sync.Row()), FinishOptions(outcome), endNow)
      ensures rows == old(rows)[sync.id.value := sync.Row()]
    {
      EndSync(sync, FinishOptions(outcome), endNow);
    }

    /** `clearUnfinished`: deletes exactly the in-progress and pending
        syncs of the trigger and reports how many of each went. */
    method ClearUnfinished(trigger: SyncTrigger) returns (inProgressDeleted: nat, pendingDeleted: nat)
      requires Valid()
      modifies this
      ensures Valid() && nextId == old(nextId)
      ensures forall k :: k in rows <==> k in old(rows) && !Unfinished(old(rows)[k], trigger)
      ensures forall k :: k in rows ==> rows[k] == old(rows)[k]
      ensures inProgressDeleted == |set k | k in old(rows) && old(rows)[k].trigger == trigger && old(rows)[k].status == InProgress|
      ensures pendingDeleted == |set k | k in old(rows) && old(rows)[k].trigger == trigger && old(rows)[k].status == Pending|
    {
      inProgressDeleted := |set k | k in rows && rows[k].trigger == trigger && rows[k].status == InProgress|;
      pendingDeleted := |set k | k in rows && rows[k].trigger == trigger && rows[k].status == Pending|;
      rows := map k | k in rows && !Unfinished(rows[k], trigger) :: rows[k];
    }
  }

}
