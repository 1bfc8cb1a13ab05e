/** Workers, duplicate deliveries, retry copies and crashes around the idempotency records, as a transition system.

    One `Copy` is one delivery of a message: it waits in a queue, sits at a worker between two database steps, waits
    in a retry queue, or has reached an end.  A worker handles one copy, so any number of copies at workers is any
    number of concurrent workers.  Every database operation is one step; the transaction that runs the handler and
    completes the record is one step.  Times are milliseconds; a client's clock reading used by a step may be older
    than the step. */
module DeliveryProtocol {
  import opened IdempotencyRecords
  import opened Topology

  datatype Message = Message(id: string, event: string, attempt: int)

  /** What a worker that holds the claim does next. */
  datatype Work =
    | Running    // the handler's transaction
    | Retrying   // publish the next attempt
    | Releasing  // published: delete the record
    | Rejecting  // mark the record failed and nack

  datatype Place =
    | InQueue
    | Inserting                 // delivered: insert the record next
    | Finding                   // the insert hit a duplicate key: read the record next
    | Reclaiming(readAt: int)   // it was PROCESSING: conditional reclaim next
    | Deleting                  // it was FAILED: delete it next
    | Recreating                // deleted: insert next
    | Claimed(startedAt: int, work: Work)
    | InRetry                   // in the retry queue of its delay
    | DeadLettered
    | Succeeded
    | Ignored                   // acked as duplicate or active
    | Released                  // acked after the retry was scheduled
    | Lost                      // its worker died; a redelivery is a new copy

  datatype Copy = Copy(message: Message, place: Place)

  datatype State = State(
    clock: int,
    records: Records,
    copies: seq<Copy>,
    committed: seq<string>,   // message ids of committed handler transactions, in order
    runs: multiset<string>)   // handler runs begun

  datatype Step =
    | Tick(now: int)
    | Publish(message: Message)
    | Deliver(k: nat)
    | Insert(k: nat, at: int)
    | Find(k: nat, readAt: int)
    | Reclaim(k: nat, at: int)
    | DeleteFailed(k: nat)
    | Recreate(k: nat, at: int)
    | HandlerSucceeds(k: nat, at: int)
    | HandlerThrows(k: nat, retryable: bool)
    | PublishRetry(k: nat, ok: bool)
    | Release(k: nat, ok: bool)
    | MarkFailed(k: nat, at: int)
    | Expire(k: nat)
    | Crash(k: nat)

  const EMPTY := State(0, map[], [], [], multiset{})

  predicate At(s: State, k: nat, place: Place) {
    k < |s.copies| && s.copies[k].place == place
  }

  predicate Holding(s: State, k: nat, work: Work) {
    k < |s.copies| && s.copies[k].place.Claimed? && s.copies[k].place.work == work
  }

  predicate AtWorker(place: Place) {
    || place.Inserting? || place.Finding? || place.Reclaiming? || place.Deleting? || place.Recreating?
    || place.Claimed?
  }

  function Id(s: State, k: nat): string
    requires k < |s.copies|
  {
    s.copies[k].message.id
  }

  predicate Enabled(s: State, step: Step) {
    match step
    case Tick(now) => s.clock <= now
    case Publish(_) => true
    case Deliver(k) => At(s, k, InQueue)
    case Insert(k, at) => At(s, k, Inserting) && at <= s.clock
    case Find(k, readAt) => At(s, k, Finding) && readAt <= s.clock
    case Reclaim(k, at) =>
      k < |s.copies| && s.copies[k].place.Reclaiming? && s.copies[k].place.readAt <= at <= s.clock
    case DeleteFailed(k) => At(s, k, Deleting)
    case Recreate(k, at) => At(s, k, Recreating) && at <= s.clock
    case HandlerSucceeds(k, _) => Holding(s, k, Running)
    case HandlerThrows(k, _) => Holding(s, k, Running)
    case PublishRetry(k, _) => Holding(s, k, Retrying)
    case Release(k, _) => Holding(s, k, Releasing)
    case MarkFailed(k, _) => Holding(s, k, Rejecting)
    case Expire(k) => At(s, k, InRetry)
    case Crash(k) => k < |s.copies| && AtWorker(s.copies[k].place)
  }

  function Moved(s: State, k: nat, place: Place): State
    requires k < |s.copies|
  {
    s.(copies := s.copies[k := s.copies[k].(place := place)])
  }

  /** The copy goes on to run its handler under the claim it just wrote. */
  function Claiming(s: State, k: nat, records: Records, startedAt: int): State
    requires k < |s.copies|
  {
    Moved(s, k, Claimed(startedAt, Running)).(records := records, runs := s.runs + multiset{Id(s, k)})
  }

  /** After a retryable failure: retry while the policy has a delay left, else reject. */
  function AfterRetryableFailure(index: map<string, EventRoute>, s: State, k: nat): State
    requires k < |s.copies| && s.copies[k].place.Claimed?
  {
    var message := s.copies[k].message;
    var work := if Decide(index, message.event, message.attempt).Retry? then Retrying else Rejecting;
    Moved(s, k, s.copies[k].place.(work := work))
  }

  function AfterFind(s: State, k: nat, readAt: int): State
    requires k < |s.copies|
  {
    var id := Id(s, k);
    if id !in s.records || s.records[id].status == Completed then Moved(s, k, Ignored)
    else if s.records[id].status == Failed then Moved(s, k, Deleting)
    else Moved(s, k, Reclaiming(readAt))
  }

  function Next(index: map<string, EventRoute>, s: State, step: Step): State
    requires Enabled(s, step)
  {
    match step
    case Tick(now) => s.(clock := now)
    case Publish(message) => s.(copies := s.copies + [Copy(message, InQueue)])
    case Deliver(k) => Moved(s, k, Inserting)
    case Insert(k, at) =>
      var message := s.copies[k].message;
      if message.id in s.records then Moved(s, k, Finding)
      else Claiming(s, k, Created(s.records, message.id, message.event, at), at)
    case Find(k, readAt) => AfterFind(s, k, readAt)
    case Reclaim(k, at) =>
      var id, staleBefore := Id(s, k), s.copies[k].place.readAt - PROCESSING_TIMEOUT_MS;
      if Stale(s.records, id, staleBefore) then Claiming(s, k, Reclaimed(s.records, id, staleBefore, at), at)
      else Moved(s, k, Ignored)
    case DeleteFailed(k) => Moved(s, k, Recreating).(records := s.records - {Id(s, k)})
    case Recreate(k, at) =>
      var message := s.copies[k].message;
      if message.id in s.records then Moved(s, k, Ignored)
      else Claiming(s, k, Created(s.records, message.id, message.event, at), at)
    case HandlerSucceeds(k, at) =>
      var id := Id(s, k);
      if HasStatus(s.records, id, Processing)
      then Moved(s, k, Succeeded).(records := Finished(s.records, id, Completed, at), committed := s.committed + [id])
      else AfterRetryableFailure(index, s, k)  // completing the record throws and aborts the transaction
    case HandlerThrows(k, retryable) =>
      if retryable then AfterRetryableFailure(index, s, k)
      else Moved(s, k, s.copies[k].place.(work := Rejecting))
    case PublishRetry(k, ok) =>
      var message := s.copies[k].message;
      if ok
      then
        var scheduled := Moved(s, k, s.copies[k].place.(work := Releasing));
        scheduled.(copies := scheduled.copies + [Copy(message.(attempt := message.attempt + 1), InRetry)])
      else Moved(s, k, s.copies[k].place.(work := Rejecting))
    case Release(k, ok) =>
      if ok then Moved(s, k, Released).(records := s.records - {Id(s, k)})
      else Moved(s, k, s.copies[k].place.(work := Rejecting))  // the same catch block marks the record failed
    case MarkFailed(k, at) => Moved(s, k, DeadLettered).(records := Finished(s.records, Id(s, k), Failed, at))
    case Expire(k) => Moved(s, k, InQueue)
    case Crash(k) => Moved(s, k, Lost)
  }

  // ---- Runs ----

  /** A run from the empty system; every prefix of a run is a run. */
  datatype Run = Start | Then(past: Run, step: Step)

  predicate IsRun(index: map<string, EventRoute>, run: Run)
    decreases run, 0
  {
    run.Then? ==> IsRun(index, run.past) && Enabled(After(index, run.past), run.step)
  }

  function After(index: map<string, EventRoute>, run: Run): State
    requires IsRun(index, run)
    decreases run, 1
  {
    match run
    case Start => EMPTY
    case Then(past, step) => Next(index, After(index, past), step)
  }

  predicate Extends(later: Run, earlier: Run) {
    later == earlier || (later.Then? && Extends(later.past, earlier))
  }
}
