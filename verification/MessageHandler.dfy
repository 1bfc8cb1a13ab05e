/** The message handler: claim, run, then complete, retry or reject.

    What the environment decides in one call is an `Env`: how the user handler ends, whether the retry publish and
    the release succeed, and the clock readings, oldest first. */
module MessageHandler {
  import opened IdempotencyRecords
  import opened Topology
  import opened DeliveryProtocol
  import opened Sequences

  datatype Outcome = Succeeds | ThrowsNonRetryable | ThrowsRetryable | ThrowsUnknown

  datatype Env = Env(
    outcome: Outcome, publishOk: bool, releaseOk: bool, insertAt: int, readAt: int, writeAt: int, endAt: int)

  datatype Reply = Ack | Nack

  datatype Publication = Publication(exchange: string, routingKey: string, message: Message)

  predicate Ordered(env: Env) {
    env.insertAt <= env.readAt <= env.writeAt <= env.endAt
  }

  /** A failure that schedules another attempt. */
  predicate Retries(index: map<string, EventRoute>, message: Message, env: Env) {
    && (env.outcome.ThrowsRetryable? || env.outcome.ThrowsUnknown?)
    && Decide(index, message.event, message.attempt).Retry?
  }

  /** One uninterrupted delivery: what it leaves of the records and of the committed effects, which attempts it
      schedules, and what it answers the broker. */
  ghost predicate HandledAs(
    index: map<string, EventRoute>, message: Message, env: Env,
    before: Records, committedBefore: seq<string>,
    after: Records, committedAfter: seq<string>, scheduled: seq<Message>, reply: Reply)
  {
    var id := message.id;
    && SameElsewhere(before, after, id)
    && if !Claimable(before, id, env.readAt) then
         after == before && committedAfter == committedBefore && scheduled == [] && reply == Ack
       else if env.outcome.Succeeds? then
         HasStatus(after, id, Completed) && committedAfter == committedBefore + [id] && scheduled == [] && reply == Ack
       else
         var published := Retries(index, message, env) && env.publishOk;
         && committedAfter == committedBefore
         && scheduled == (if published then [message.(attempt := message.attempt + 1)] else [])
         && if published && env.releaseOk then id !in after && reply == Ack
            else HasStatus(after, id, Failed) && reply == Nack
  }

  /** What that means for a delivery that claims the message, outcome by outcome. */
  lemma ClaimedDeliveryEnds(
    index: map<string, EventRoute>, message: Message, env: Env, before: Records, committedBefore: seq<string>,
    after: Records, committedAfter: seq<string>, scheduled: seq<Message>, reply: Reply)
    requires HandledAs(index, message, env, before, committedBefore, after, committedAfter, scheduled, reply)
    requires message.id !in before || before[message.id].status == Failed
      || (before[message.id].status == Processing && before[message.id].startedAt < env.readAt - 300_000)
    ensures var retry := Decide(index, message.event, message.attempt).Retry?;
      match env.outcome
      case Succeeds =>
        && message.id in after && after[message.id].status == Completed
        && committedAfter == committedBefore + [message.id] && scheduled == [] && reply == Ack
      case ThrowsNonRetryable =>
        && message.id in after && after[message.id].status == Failed
        && committedAfter == committedBefore && scheduled == [] && reply == Nack
      case _ =>
        && committedAfter == committedBefore
        && scheduled == (if retry && env.publishOk then [message.(attempt := message.attempt + 1)] else [])
        && (retry && env.publishOk && env.releaseOk ==> message.id !in after && reply == Ack)
        && (!retry || !env.publishOk || !env.releaseOk ==>
              message.id in after && after[message.id].status == Failed && reply == Nack)
  {
  }

  function Scheduled(publications: seq<Publication>): seq<Message> {
    seq(|publications|, i requires 0 <= i < |publications| => publications[i].message)
  }

  class RabbitMqMessageHandler {
    const index: map<string, EventRoute>
    const idempotencyService: MessageIdempotencyService
    var committed: seq<string>
    /** Handler runs that ended well outside a transaction. */
    var effects: seq<string>
    var publications: seq<Publication>

    constructor (index: map<string, EventRoute>, idempotencyService: MessageIdempotencyService)
      ensures this.index == index && this.idempotencyService == idempotencyService
      ensures committed == [] && effects == [] && publications == []
    {
      this.index, this.idempotencyService := index, idempotencyService;
      committed, effects, publications := [], [], [];
    }

    method Execute(message: Message, env: Env) returns (reply: Reply)
      requires Ordered(env)
      modifies this`committed, this`publications, idempotencyService.repository
      ensures |publications| >= |old(publications)| && publications[..|old(publications)|] == old(publications)
      ensures var decision := Decide(index, message.event, message.attempt);
        forall i :: |old(publications)| <= i < |publications| ==>
          && decision.Retry?
          && publications[i].exchange == decision.retryExchange
          && publications[i].routingKey == decision.originalRoutingKey
      ensures HandledAs(index, message, env, old(idempotencyService.repository.records), old(committed),
                        idempotencyService.repository.records, committed,
                        Scheduled(publications[|old(publications)|..]), reply)
    {
      var shouldProcess :=
        idempotencyService.StartProcessing(message.id, message.event, env.insertAt, env.readAt, env.writeAt);
      if !shouldProcess {
        return Ack;
      }
      if env.outcome.Succeeds? {
        // The handler's effects and the record's completion are one transaction.
        var completed := idempotencyService.MarkCompleted(message.id, env.endAt);
        if completed.Ok? {
          committed := committed + [message.id];
          return Ack;
        }
      }
      reply := HandleProcessingError(message, env);
    }

    /** The same without the transaction: the handler's effects stay even if the record cannot be completed.  A single
        delivery leaves what `Execute` does. */
    method ExecuteWithoutTransaction(message: Message, env: Env) returns (reply: Reply)
      requires Ordered(env)
      modifies this`effects, this`publications, idempotencyService.repository
      ensures |publications| >= |old(publications)| && publications[..|old(publications)|] == old(publications)
      ensures HandledAs(index, message, env, old(idempotencyService.repository.records), old(effects),
                        idempotencyService.repository.records, effects,
                        Scheduled(publications[|old(publications)|..]), reply)
    {
      var shouldProcess :=
        idempotencyService.StartProcessing(message.id, message.event, env.insertAt, env.readAt, env.writeAt);
      if !shouldProcess {
        return Ack;
      }
      if env.outcome.Succeeds? {
        effects := effects + [message.id];
        var completed := idempotencyService.MarkCompleted(message.id, env.endAt);
        if completed.Ok? {
          return Ack;
        }
      }
      reply := HandleProcessingError(message, env);
    }

    method HandleProcessingError(message: Message, env: Env) returns (reply: Reply)
      modifies this`publications, idempotencyService.repository
      ensures var before, after := old(idempotencyService.repository.records), idempotencyService.repository.records;
        && SameElsewhere(before, after, message.id)
        && if env.outcome.ThrowsNonRetryable? then
             reply == Nack && publications == old(publications)
             && after == Finished(before, message.id, Failed, env.endAt)
           else
             AfterRetryableError(index, message, env, before, after, old(publications), publications, reply)
    {
      if env.outcome.ThrowsNonRetryable? {
        idempotencyService.MarkFailed(message.id, env.endAt);
        return Nack;
      }
      reply := HandleRetryableError(message, env);
    }

    method HandleRetryableError(message: Message, env: Env) returns (reply: Reply)
      modifies this`publications, idempotencyService.repository
      ensures SameElsewhere(old(idempotencyService.repository.records), idempotencyService.repository.records,
                            message.id)
      ensures AfterRetryableError(index, message, env,
                                  old(idempotencyService.repository.records), idempotencyService.repository.records,
                                  old(publications), publications, reply)
    {
      var decision := Decide(index, message.event, message.attempt);
      if decision.DeadLetter? {
        idempotencyService.MarkFailed(message.id, env.endAt);
        return Nack;
      }
      if env.publishOk {
        publications := publications + [Publication(decision.retryExchange, decision.originalRoutingKey,
                                                    message.(attempt := decision.nextAttempt))];
        if env.releaseOk {
          idempotencyService.ReleaseForRetry(message.id);
          return Ack;
        }
      }
      idempotencyService.MarkFailed(message.id, env.endAt);
      return Nack;
    }
  }

  ghost predicate AfterRetryableError(
    index: map<string, EventRoute>, message: Message, env: Env, before: Records, after: Records,
    publicationsBefore: seq<Publication>, publicationsAfter: seq<Publication>, reply: Reply)
  {
    match Decide(index, message.event, message.attempt)
    case DeadLetter =>
      reply == Nack && publicationsAfter == publicationsBefore
      && after == Finished(before, message.id, Failed, env.endAt)
    case Retry(nextAttempt, exchange, routingKey) =>
      var next := Publication(exchange, routingKey, message.(attempt := nextAttempt));
      && publicationsAfter == publicationsBefore + (if env.publishOk then [next] else [])
      && if env.publishOk && env.releaseOk then reply == Ack && after == before - {message.id}
         else reply == Nack && after == Finished(before, message.id, Failed, env.endAt)
  }

  // ---- The protocol's steps, taken without interruption, do the same ----

  predicate Leads(index: map<string, EventRoute>, s: State, steps: seq<Step>, s': State)
    decreases |steps|
  {
    if steps == [] then s == s'
    else Enabled(s, steps[0]) && Leads(index, Next(index, s, steps[0]), steps[1..], s')
  }

  lemma {:induction false} LeadsFurther(
    index: map<string, EventRoute>, s: State, steps: seq<Step>, s': State, step: Step)
    requires Leads(index, s, steps, s') && Enabled(s', step)
    ensures Leads(index, s, steps + [step], Next(index, s', step))
    decreases |steps|
  {
    var longer := steps + [step];
    if steps == [] {
      assert longer[1..] == [];
    } else {
      assert longer[1..] == steps[1..] + [step];
      LeadsFurther(index, Next(index, s, steps[0]), steps[1..], s', step);
    }
  }

  /** A delivery in progress: the steps taken so far from `start`, all for copy `k`. */
  ghost predicate InProgress(index: map<string, EventRoute>, start: State, steps: seq<Step>, s: State, k: nat) {
    && Leads(index, start, steps, s)
    && k < |start.copies| <= |s.copies|
    && s.copies[k].message == start.copies[k].message
    && s.clock == start.clock
    && forall j: nat :: j < |start.copies| && j != k ==> s.copies[j] == start.copies[j]
  }

  predicate MovesOnly(step: Step, k: nat) {
    match step
    case Tick(_) => false
    case Publish(_) => false
    case Crash(_) => false
    case _ => step.k == k
  }

  lemma Take(index: map<string, EventRoute>, start: State, steps: seq<Step>, s: State, k: nat, step: Step)
    returns (longer: seq<Step>, s': State)
    requires InProgress(index, start, steps, s, k) && Enabled(s, step) && MovesOnly(step, k)
    ensures s' == Next(index, s, step) && InProgress(index, start, longer, s', k) && longer == steps + [step]
  {
    LeadsFurther(index, start, steps, s, step);
    longer, s' := steps + [step], Next(index, s, step);
  }

  /** The steps of the claim, given the record the delivery meets: the environment's clock readings fix all of them. */
  function ClaimSteps(records: Records, id: string, k: nat, env: Env): seq<Step> {
    [Deliver(k), Insert(k, env.insertAt)] +
    if id !in records then []
    else
      match records[id].status
      case Completed => [Find(k, env.readAt)]
      case Failed => [Find(k, env.readAt), DeleteFailed(k), Recreate(k, env.writeAt)]
      case Processing => [Find(k, env.readAt), Reclaim(k, env.writeAt)]
  }

  /** The steps from the claim on. */
  function HandlingSteps(index: map<string, EventRoute>, message: Message, k: nat, env: Env): seq<Step> {
    if env.outcome.Succeeds? then [HandlerSucceeds(k, env.endAt)]
    else
      [HandlerThrows(k, !env.outcome.ThrowsNonRetryable?)] +
      if !Retries(index, message, env) then [MarkFailed(k, env.endAt)]
      else RetrySteps(k, env)
  }

  function RetrySteps(k: nat, env: Env): seq<Step> {
    if !env.publishOk then [PublishRetry(k, false), MarkFailed(k, env.endAt)]
    else if env.releaseOk then [PublishRetry(k, true), Release(k, true)]
    else [PublishRetry(k, true), Release(k, false), MarkFailed(k, env.endAt)]
  }

  /** All steps of one delivery. */
  function DeliverySteps(index: map<string, EventRoute>, records: Records, message: Message, k: nat, env: Env)
    : seq<Step>
  {
    ClaimSteps(records, message.id, k, env) +
    if Claimable(records, message.id, env.readAt) then HandlingSteps(index, message, k, env) else []
  }

  /** A delivery up to its insert: it claims an absent record at once, and otherwise goes on to read it. */
  lemma SoloInsert(index: map<string, EventRoute>, start: State, k: nat, env: Env)
    returns (steps: seq<Step>, s: State)
    requires At(start, k, InQueue) && Ordered(env) && env.endAt <= start.clock
    ensures InProgress(index, start, steps, s, k) && |s.copies| == |start.copies| && s.committed == start.committed
    ensures steps == [Deliver(k), Insert(k, env.insertAt)]
    ensures SameElsewhere(start.records, s.records, Id(start, k))
    ensures if Id(start, k) in start.records then s.copies[k].place == Finding && s.records == start.records
            else Holding(s, k, Running) && HasStatus(s.records, Id(start, k), Processing)
  {
    steps, s := [], start;
    steps, s := Take(index, start, steps, s, k, Deliver(k));
    steps, s := Take(index, start, steps, s, k, Insert(k, env.insertAt));
  }

  /** The claim, as protocol steps. */
  lemma SoloClaim(index: map<string, EventRoute>, start: State, k: nat, env: Env)
    returns (steps: seq<Step>, s: State)
    requires At(start, k, InQueue) && Ordered(env) && env.endAt <= start.clock
    ensures InProgress(index, start, steps, s, k) && |s.copies| == |start.copies| && s.committed == start.committed
    ensures steps == ClaimSteps(start.records, Id(start, k), k, env)
    ensures SameElsewhere(start.records, s.records, Id(start, k))
    ensures Claimable(start.records, Id(start, k), env.readAt) ==>
      Holding(s, k, Running) && HasStatus(s.records, Id(start, k), Processing)
    ensures !Claimable(start.records, Id(start, k), env.readAt) ==>
      s.copies[k].place == Ignored && s.records == start.records
  {
    steps, s := SoloInsert(index, start, k, env);
    if Id(start, k) in start.records {
      steps, s := Take(index, start, steps, s, k, Find(k, env.readAt));
      if s.copies[k].place.Deleting? {
        steps, s := Take(index, start, steps, s, k, DeleteFailed(k));
        steps, s := Take(index, start, steps, s, k, Recreate(k, env.writeAt));
      } else if s.copies[k].place.Reclaiming? {
        steps, s := Take(index, start, steps, s, k, Reclaim(k, env.writeAt));
      }
    }
  }

  /** What a failed handler run leaves, retried or not. */
  ghost predicate FailedAs(index: map<string, EventRoute>, claimed: State, s: State, k: nat, env: Env)
    requires k < |claimed.copies| && k < |s.copies|
  {
    var id, message, place := Id(claimed, k), claimed.copies[k].message, s.copies[k].place;
    var published := Retries(index, message, env) && env.publishOk;
    && s.committed == claimed.committed
    && (if published
        then |s.copies| == |claimed.copies| + 1
             && s.copies[|claimed.copies|] == Copy(message.(attempt := message.attempt + 1), InRetry)
        else |s.copies| == |claimed.copies|)
    && if published && env.releaseOk then place == Released && id !in s.records
       else place == DeadLettered && HasStatus(s.records, id, Failed)
  }

  /** The retry of a failed run, as protocol steps. */
  lemma SoloRetry(index: map<string, EventRoute>, start: State, taken: seq<Step>, failed: State, k: nat, env: Env)
    returns (steps: seq<Step>, s: State)
    requires InProgress(index, start, taken, failed, k) && Holding(failed, k, Retrying)
    requires Decide(index, failed.copies[k].message.event, failed.copies[k].message.attempt).Retry?
    requires env.outcome.ThrowsRetryable? || env.outcome.ThrowsUnknown?
    requires HasStatus(failed.records, Id(start, k), Processing) && env.endAt <= start.clock
    ensures InProgress(index, start, steps, s, k) && SameElsewhere(failed.records, s.records, Id(start, k))
    ensures steps == taken + RetrySteps(k, env)
    ensures FailedAs(index, failed, s, k, env)
  {
    steps, s := Take(index, start, taken, failed, k, PublishRetry(k, env.publishOk));
    if env.publishOk {
      steps, s := Take(index, start, steps, s, k, Release(k, env.releaseOk));
    }
    if Holding(s, k, Rejecting) {
      steps, s := Take(index, start, steps, s, k, MarkFailed(k, env.endAt));
    }
  }

  /** A failed run, as protocol steps. */
  lemma SoloFailure(index: map<string, EventRoute>, start: State, taken: seq<Step>, claimed: State, k: nat, env: Env)
    returns (steps: seq<Step>, s: State)
    requires InProgress(index, start, taken, claimed, k) && Holding(claimed, k, Running)
    requires HasStatus(claimed.records, Id(start, k), Processing) && env.endAt <= start.clock
    requires !env.outcome.Succeeds?
    ensures InProgress(index, start, steps, s, k) && SameElsewhere(claimed.records, s.records, Id(start, k))
    ensures steps == taken + HandlingSteps(index, start.copies[k].message, k, env)
    ensures FailedAs(index, claimed, s, k, env)
  {
    var message := start.copies[k].message;
    steps, s := Take(index, start, taken, claimed, k, HandlerThrows(k, !env.outcome.ThrowsNonRetryable?));
    if Retries(index, message, env) {
      steps, s := SoloRetry(index, start, steps, s, k, env);
      Assoc(taken, [HandlerThrows(k, true)], RetrySteps(k, env));
    } else {
      steps, s := Take(index, start, steps, s, k, MarkFailed(k, env.endAt));
      Assoc(taken, [HandlerThrows(k, !env.outcome.ThrowsNonRetryable?)], [MarkFailed(k, env.endAt)]);
    }
  }

  /** From the claim on, as protocol steps. */
  lemma SoloHandling(index: map<string, EventRoute>, start: State, taken: seq<Step>, claimed: State, k: nat, env: Env)
    returns (steps: seq<Step>, s: State)
    requires InProgress(index, start, taken, claimed, k) && Holding(claimed, k, Running)
    requires HasStatus(claimed.records, Id(start, k), Processing) && env.endAt <= start.clock
    ensures InProgress(index, start, steps, s, k) && SameElsewhere(claimed.records, s.records, Id(start, k))
    ensures steps == taken + HandlingSteps(index, start.copies[k].message, k, env)
    ensures env.outcome.Succeeds? ==>
      && s.copies[k].place == Succeeded && HasStatus(s.records, Id(start, k), Completed)
      && s.committed == claimed.committed + [Id(start, k)] && |s.copies| == |claimed.copies|
    ensures !env.outcome.Succeeds? ==> FailedAs(index, claimed, s, k, env)
  {
    if env.outcome.Succeeds? {
      steps, s := Take(index, start, taken, claimed, k, HandlerSucceeds(k, env.endAt));
    } else {
      steps, s := SoloFailure(index, start, taken, claimed, k, env);
    }
  }

  /** The messages of the copies a delivery added. */
  function AddedMessages(before: State, after: State): seq<Message>
    requires |before.copies| <= |after.copies|
  {
    seq(|after.copies| - |before.copies|,
        i requires 0 <= i < |after.copies| - |before.copies| => after.copies[|before.copies| + i].message)
  }

  /** The interleaving model and the handler agree: the delivery's row of steps, with no other step between them, is
      enabled throughout and leaves the records, effects, scheduled attempts and answer that `Execute` promises. */
  lemma SoloDelivery(index: map<string, EventRoute>, start: State, k: nat, env: Env)
    returns (s: State, reply: Reply)
    requires At(start, k, InQueue) && Ordered(env) && env.endAt <= start.clock
    ensures InProgress(index, start, DeliverySteps(index, start.records, start.copies[k].message, k, env), s, k)
    ensures reply == if s.copies[k].place.DeadLettered? then Nack else Ack
    ensures HandledAs(index, start.copies[k].message, env, start.records, start.committed,
                      s.records, s.committed, AddedMessages(start, s), reply)
  {
    var steps;
    steps, s := SoloClaim(index, start, k, env);
    if Claimable(start.records, Id(start, k), env.readAt) {
      steps, s := SoloHandling(index, start, steps, s, k, env);
    }
    assert steps == DeliverySteps(index, start.records, start.copies[k].message, k, env);
    reply := if s.copies[k].place.DeadLettered? then Nack else Ack;
  }
}
