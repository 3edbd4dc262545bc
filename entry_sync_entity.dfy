/** The work-item record of src/db/entities/LetterboxdUserEntrySync.ts:
    a user's request to have their Letterboxd entries synced. */
module EntrySyncEntity {
  import opened Wrappers

  /** The status of a work item. `Requested` and `Queued` are the members
      the batch claim reads and writes; the enum's other members, defined
      in src/common/types/db.ts, which is not part of this model, are
      kept apart by their name and never claimed. */
  datatype EntrySyncStatus = Requested | Queued | OtherStatus(name: string)

  /** A work item. `id` is generated by the store, `status` and
      `entryType` are always present, the cursors, batch id, dates and
      notes are optional, and `userId` is the one user it belongs to.
      Dates are milliseconds. */
  datatype WorkItem = WorkItem(
    id: nat,
    status: EntrySyncStatus,
    entryType: string,
    page: Option<int>,
    lastPageProcessed: Option<int>,
    batchId: Option<string>,
    requestDate: Option<int>,
    startDate: Option<int>,
    endDate: Option<int>,
    lastUpdated: Option<int>,
    userId: int,
    notes: Option<string>)

  /** A freshly requested item: only the required fields and the request
      date are set. */
  function RequestedItem(id: nat, entryType: string, userId: int, requestDate: int): (w: WorkItem)
    ensures w.status == Requested && w.batchId.None?
    ensures w.id == id && w.userId == userId && w.entryType == entryType
  {
    WorkItem(id, Requested, entryType, None, None, None, Some(requestDate), None, None, None, userId, None)
  }
}
