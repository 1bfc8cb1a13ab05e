/** The per-message idempotency record, its repository and the claim service.

    `records` is the Mongo collection keyed by its unique index `messageId`.  Each repository method is one
    database operation; the times passed in are the client's clock readings. */
module IdempotencyRecords {
  import opened Options

  datatype Status = Processing | Completed | Failed

  datatype Record = Record(event: string, status: Status, startedAt: int, completedAt: Option<int>)

  type Records = map<string, Record>

  const PROCESSING_TIMEOUT_MS := 5 * 60 * 1000

  predicate HasStatus(records: Records, id: string, status: Status) {
    id in records && records[id].status == status
  }

  /** The filter of the reclaiming update. */
  predicate Stale(records: Records, id: string, staleBefore: int) {
    HasStatus(records, id, Processing) && records[id].startedAt < staleBefore
  }

  /** What a delivery must find for `startProcessing`, run without interruption, to claim the message. */
  predicate Claimable(records: Records, id: string, readAt: int) {
    || id !in records
    || HasStatus(records, id, Failed)
    || Stale(records, id, readAt - PROCESSING_TIMEOUT_MS)
  }

  /** `after` differs from `before` at `id` at most. */
  ghost predicate SameElsewhere(before: Records, after: Records, id: string) {
    forall other :: other != id ==>
      (other in before <==> other in after) && (other in before ==> before[other] == after[other])
  }

  function Created(records: Records, id: string, event: string, now: int): Records {
    if id in records then records else records[id := Record(event, Processing, now, None)]
  }

  function Reclaimed(records: Records, id: string, staleBefore: int, now: int): Records {
    if Stale(records, id, staleBefore) then records[id := records[id].(startedAt := now)] else records
  }

  function Finished(records: Records, id: string, status: Status, now: int): Records {
    if HasStatus(records, id, Processing)
    then records[id := records[id].(status := status, completedAt := Some(now))]
    else records
  }

  class MessageIdempotencyRepository {
    var records: Records

    constructor ()
      ensures records == map[]
    {
      records := map[];
    }

    /** Inserts a record; a duplicate key is reported as `false`. */
    method CreateProcessing(id: string, event: string, now: int) returns (created: bool)
      modifies this
      ensures created <==> id !in old(records)
      ensures records == Created(old(records), id, event, now)
    {
      created := id !in records;
      if created {
        records := records[id := Record(event, Processing, now, None)];
      }
    }

    method FindByMessageId(id: string) returns (found: Option<Record>)
      ensures found == if id in records then Some(records[id]) else None
    {
      if id in records {
        return Some(records[id]);
      }
      return None;
    }

    /** One conditional update.  The server counts a document as modified only when a field changes. */
    method ReclaimStaleProcessing(id: string, staleBefore: int, now: int) returns (reclaimed: bool)
      modifies this
      ensures records == Reclaimed(old(records), id, staleBefore, now)
      ensures reclaimed <==> records != old(records)
    {
      reclaimed := false;
      if Stale(records, id, staleBefore) {
        reclaimed := records[id].startedAt != now;
        ghost var before := records;
        records := records[id := records[id].(startedAt := now)];
        assert records[id] == before[id] <==> !reclaimed;
      }
    }

    /** The source throws when no PROCESSING record was there to complete. */
    method MarkAsCompleted(id: string, now: int) returns (result: Result<(), string>)
      modifies this
      ensures result.Ok? <==> HasStatus(old(records), id, Processing)
      ensures records == Finished(old(records), id, Completed, now)
    {
      if HasStatus(records, id, Processing) {
        records := records[id := records[id].(status := Completed, completedAt := Some(now))];
        return Ok(());
      }
      return Err("Failed to mark message as completed: " + id);
    }

    method MarkAsFailed(id: string, now: int)
      modifies this
      ensures records == Finished(old(records), id, Failed, now)
    {
      if HasStatus(records, id, Processing) {
        records := records[id := records[id].(status := Failed, completedAt := Some(now))];
      }
    }

    method DeleteByMessageId(id: string)
      modifies this
      ensures records == old(records) - {id}
    {
      records := records - {id};
    }
  }

  class MessageIdempotencyService {
    const repository: MessageIdempotencyRepository

    constructor (repository: MessageIdempotencyRepository)
      ensures this.repository == repository
    {
      this.repository := repository;
    }

    /** The claim, when no other delivery runs between its database steps.  It claims exactly the claimable
        messages, leaves one fresh PROCESSING record behind, and otherwise changes nothing. */
    method StartProcessing(id: string, event: string, insertAt: int, readAt: int, writeAt: int)
      returns (claimed: bool)
      requires insertAt <= readAt <= writeAt
      modifies repository
      // An absent or FAILED record is claimed, a COMPLETED one is not, and a PROCESSING one exactly when its claim is
      // more than five minutes old.
      ensures id !in old(repository.records) ==> claimed
      ensures id in old(repository.records) ==>
        var record := old(repository.records)[id];
        && (record.status == Failed ==> claimed)
        && (record.status == Completed ==> !claimed)
        && (record.status == Processing ==> (claimed <==> record.startedAt < readAt - 300_000))
      ensures claimed <==> Claimable(old(repository.records), id, readAt)
      ensures SameElsewhere(old(repository.records), repository.records, id)
      ensures claimed ==> HasStatus(repository.records, id, Processing)
      ensures claimed ==>
        repository.records[id].startedAt == if id in old(repository.records) then writeAt else insertAt
      ensures claimed ==>
        repository.records[id].event ==
        if HasStatus(old(repository.records), id, Processing) then old(repository.records)[id].event else event
      ensures claimed ==> repository.records[id].completedAt.None? || HasStatus(old(repository.records), id, Processing)
      ensures !claimed ==> repository.records == old(repository.records)
    {
      var created := repository.CreateProcessing(id, event, insertAt);
      if created {
        return true;
      }
      var existing := repository.FindByMessageId(id);
      if existing.None? {
        return false;
      }
      if existing.value.status == Completed {
        return false;
      }
      if existing.value.status == Failed {
        repository.DeleteByMessageId(id);
        claimed := repository.CreateProcessing(id, event, writeAt);
        return;
      }
      claimed := repository.ReclaimStaleProcessing(id, readAt - PROCESSING_TIMEOUT_MS, writeAt);
      assert claimed ==> repository.records[id].startedAt == writeAt;
      if Stale(old(repository.records), id, readAt - PROCESSING_TIMEOUT_MS) {
        assert repository.records[id] != old(repository.records)[id];
      }
    }

    method MarkCompleted(id: string, now: int) returns (result: Result<(), string>)
      modifies repository
      ensures result.Ok? <==> HasStatus(old(repository.records), id, Processing)
      ensures repository.records == Finished(old(repository.records), id, Completed, now)
    {
      result := repository.MarkAsCompleted(id, now);
    }

    method MarkFailed(id: string, now: int)
      modifies repository
      ensures repository.records == Finished(old(repository.records), id, Failed, now)
    {
      repository.MarkAsFailed(id, now);
    }

    method ReleaseForRetry(id: string)
      modifies repository
      ensures repository.records == old(repository.records) - {id}
    {
      repository.DeleteByMessageId(id);
    }
  }
}
