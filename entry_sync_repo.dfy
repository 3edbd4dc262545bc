/** The batch claim of src/db/repositories/LetterboxdUserEntrySyncRepo.ts:
    one bulk conditional update moves every requested work item into a
    queued batch named by a fresh id, then the batch is read back and its
    size checked against the update's affected count. */
module EntrySyncRepo {
  import opened Wrappers
  import opened JsText
  import opened EntrySyncEntity
  import opened Failures

  /** The bulk update applied to one item. */
  function Claim(w: WorkItem, uuid: string): WorkItem {
    if w.status == Requested then w.(status := Queued, batchId := Some(uuid)) else w
  }

  /** The bulk update applied to the whole table. */
  function ClaimAll(rows: seq<WorkItem>, uuid: string): (r: seq<WorkItem>)
    ensures |r| == |rows|
    ensures forall i :: 0 <= i < |rows| ==> r[i] == Claim(rows[i], uuid)
  {
    if rows == [] then [] else [Claim(rows[0], uuid)] + ClaimAll(rows[1..], uuid)
  }

  /** The items still waiting to be claimed, in table order. */
  function RequestedRows(rows: seq<WorkItem>): (r: seq<WorkItem>)
    ensures |r| <= |rows|
    ensures forall i :: 0 <= i < |r| ==> r[i] in rows && r[i].status == Requested
  {
    if rows == [] then []
    else if rows[0].status == Requested then [rows[0]] + RequestedRows(rows[1..])
    else RequestedRows(rows[1..])
  }

  /** The read-back: the queued items carrying the batch id, in table order. */
  function InBatch(rows: seq<WorkItem>, uuid: string): (r: seq<WorkItem>)
    ensures |r| <= |rows|
    ensures forall i :: 0 <= i < |r| ==> r[i] in rows && r[i].status == Queued && r[i].batchId == Some(uuid)
  {
    if rows == [] then []
    else if rows[0].status == Queued && rows[0].batchId == Some(uuid) then [rows[0]] + InBatch(rows[1..], uuid)
    else InBatch(rows[1..], uuid)
  }

  /** The message of the count-mismatch error. */
  function MismatchMessage(found: nat, affected: nat): string {
    "Something went wrong while queueing the requested syncs. { \"queuedBatch.length\": "
      + IntString(found) + ", \"affected\": " + IntString(affected) + " }"
  }

  /** No item already carries the batch id: what a fresh UUID guarantees. */
  predicate FreshBatchId(rows: seq<WorkItem>, uuid: string) {
    forall i :: 0 <= i < |rows| ==> rows[i].batchId != Some(uuid)
  }

  /** After the update, nothing is left requested. */
  lemma {:induction false} NoneLeftRequested(rows: seq<WorkItem>, uuid: string)
    ensures RequestedRows(ClaimAll(rows, uuid)) == []
  {
    if rows != [] {
      NoneLeftRequested(rows[1..], uuid);
      assert ClaimAll(rows, uuid) == [Claim(rows[0], uuid)] + ClaimAll(rows[1..], uuid);
      assert ClaimAll(rows, uuid)[1..] == ClaimAll(rows[1..], uuid);
    }
  }

  /** With a fresh batch id, the read-back is exactly the claimed versions
      of the items that were requested, in table order; so it has exactly
      as many items as the update affected. */
  lemma {:induction false} FreshBatchReadsBackClaimed(rows: seq<WorkItem>, uuid: string)
    requires FreshBatchId(rows, uuid)
    ensures InBatch(ClaimAll(rows, uuid), uuid) == ClaimAll(RequestedRows(rows), uuid)
    ensures |InBatch(ClaimAll(rows, uuid), uuid)| == |RequestedRows(rows)|
  {
    if rows != [] {
      assert FreshBatchId(rows[1..], uuid) by {
        forall i | 0 <= i < |rows[1..]| ensures rows[1..][i].batchId != Some(uuid) {
          assert rows[1..][i] == rows[i + 1];
        }
      }
      FreshBatchReadsBackClaimed(rows[1..], uuid);
      var claimed := ClaimAll(rows, uuid);
      assert claimed == [Claim(rows[0], uuid)] + ClaimAll(rows[1..], uuid);
      assert claimed[1..] == ClaimAll(rows[1..], uuid);
      assert rows[0].batchId != Some(uuid);
      if rows[0].status == Requested {
        assert RequestedRows(rows) == [rows[0]] + RequestedRows(rows[1..]);
        assert ClaimAll([rows[0]] + RequestedRows(rows[1..]), uuid)
            == [Claim(rows[0], uuid)] + ClaimAll(RequestedRows(rows[1..]), uuid);
      } else {
        assert RequestedRows(rows) == RequestedRows(rows[1..]);
      }
    }
  }

  /** The work-item table. */
  class EntrySyncRepository {
    var rows: seq<WorkItem>

    constructor (rows: seq<WorkItem>)
      ensures this.rows == rows
    {
      this.rows := rows;
    }

    /** `queueRequested`, with the fresh UUID as a parameter. The table is
        updated in one step; an update that affected nothing returns `[]`
        without reading back; a read-back whose size differs from the
        affected count throws. */
    method QueueRequested(uuid: string) returns (r: Result<seq<WorkItem>, Thrown>)
      modifies this
      ensures rows == ClaimAll(old(rows), uuid)
      ensures RequestedRows(rows) == []
      ensures |RequestedRows(old(rows))| == 0 ==> r == Ok([])
      ensures |RequestedRows(old(rows))| > 0 && |InBatch(rows, uuid)| == |RequestedRows(old(rows))| ==>
        r == Ok(InBatch(rows, uuid))
      ensures |RequestedRows(old(rows))| > 0 && |InBatch(rows, uuid)| != |RequestedRows(old(rows))| ==>
        r == Err(Raised(PlainError(MismatchMessage(|InBatch(rows, uuid)|, |RequestedRows(old(rows))|))))
      ensures FreshBatchId(old(rows), uuid) ==> r == Ok(ClaimAll(RequestedRows(old(rows)), uuid))
    {
      var affected := |RequestedRows(rows)|;
      rows := ClaimAll(rows, uuid);
      NoneLeftRequested(old(rows), uuid);
      if affected == 0 {
        return Ok([]);
      }
      var queuedBatch := InBatch(rows, uuid);
      if FreshBatchId(old(rows), uuid) {
        FreshBatchReadsBackClaimed(old(rows), uuid);
      }
      if |queuedBatch| != affected {
        return Err(Raised(PlainError(MismatchMessage(|queuedBatch|, affected))));
      }
      r := Ok(queuedBatch);
    }
  }

  /** Claims are at most once: right after a claim, a second claim with any
      id finds nothing to claim and returns `[]`. */
  lemma SecondClaimFindsNothing(rows: seq<WorkItem>, u1: string, u2: string)
    ensures RequestedRows(ClaimAll(rows, u1)) == []
    ensures ClaimAll(ClaimAll(rows, u1), u2) == ClaimAll(rows, u1)
  {
    NoneLeftRequested(rows, u1);
  }

  /** A reused batch id shows the mismatch path: an item queued earlier
      under the same id is read back too, so the counts differ. */
  lemma StaleBatchIdMismatch(userId: int)
    ensures var before := [WorkItem(1, Queued, "watches", None, None, Some("b"), None, None, None, None, userId, None),
                           WorkItem(2, Requested, "watches", None, None, None, None, None, None, None, userId, None)];
            |RequestedRows(before)| == 1 && |InBatch(ClaimAll(before, "b"), "b")| == 2
  {
    var before := [WorkItem(1, Queued, "watches", None, None, Some("b"), None, None, None, None, userId, None),
                   WorkItem(2, Requested, "watches", None, None, None, None, None, None, None, userId, None)];
    assert before[1..] == [before[1]];
    assert RequestedRows(before) == [before[1]];
    var after := ClaimAll(before, "b");
    assert after[1..] == [after[1]];
    assert InBatch(after, "b") == [after[0], after[1]];
  }
}
