/** Runs that commit one message twice when one of the two timing assumptions is dropped. */
module DeliveryHazards {
  import opened Options
  import opened IdempotencyRecords
  import opened Topology
  import opened DeliveryProtocol

  const EVENT := "event"
  const FIRST := Message("m", EVENT, 1)
  const SECOND := Message("m", EVENT, 2)
  const INDEX: map<string, EventRoute> := map[EVENT := EventRoute("d", "x", EVENT, "q", [5000])]
  const FIVE_MINUTES_LATER := 300001

  function Processed(startedAt: int): Records {
    map["m" := Record(EVENT, Processing, startedAt, None)]
  }

  function Ended(status: Status, startedAt: int, at: int): Records {
    map["m" := Record(EVENT, status, startedAt, Some(at))]
  }

  lemma DecisionsAreEvaluated()
    ensures Decide(INDEX, EVENT, 1).Retry?
  {
    assert INDEX[EVENT].retryDelaysMs == [5000];
  }

  ghost predicate Reached(run: Run, s: State) {
    IsRun(INDEX, run) && After(INDEX, run) == s
  }

  /** The step does not come between the delete and the insert of a re-entry. */
  predicate Follows(run: Run, step: Step) {
    run.Then? && run.step.DeleteFailed? ==> step.Recreate? && step.k == run.step.k
  }

  /** Every delete of a FAILED record is followed at once by the insert of the same worker. */
  predicate ReentersAtOnce(run: Run) {
    run.Then? ==> ReentersAtOnce(run.past) && Follows(run.past, run.step)
  }

  /** Appends one step. */
  lemma Take(run: Run, s: State, step: Step) returns (longer: Run, s': State)
    requires Reached(run, s) && Enabled(s, step)
    ensures s' == Next(INDEX, s, step) && Reached(longer, s') && longer == Then(run, step)
    ensures ReentersAtOnce(run) && Follows(run, step) ==> ReentersAtOnce(longer)
  {
    longer, s' := Then(run, step), Next(INDEX, s, step);
  }

  // ---- A stalled worker releases late ----

  lemma StalledWorker() returns (run: Run)
    ensures Reached(run, State(0, Processed(0), [Copy(FIRST, Claimed(0, Running)), Copy(FIRST, InQueue)], [],
                               multiset{"m"}))
    ensures ReentersAtOnce(run) && run.Then? && !run.step.DeleteFailed?
  {
    var s := EMPTY;
    run := Start;
    run, s := Take(run, s, Publish(FIRST));
    run, s := Take(run, s, Publish(FIRST));
    run, s := Take(run, s, Deliver(0));
    run, s := Take(run, s, Insert(0, 0));
    assert s.copies == [Copy(FIRST, Claimed(0, Running)), Copy(FIRST, InQueue)];
  }

  lemma StalledAfterPublish() returns (run: Run)
    ensures Reached(run, State(FIVE_MINUTES_LATER, Processed(0),
                               [Copy(FIRST, Claimed(0, Releasing)), Copy(FIRST, InQueue), Copy(SECOND, InRetry)], [],
                               multiset{"m"}))
  {
    DecisionsAreEvaluated();
    run := StalledWorker();
    var s := After(INDEX, run);
    run, s := Take(run, s, HandlerThrows(0, true));
    run, s := Take(run, s, PublishRetry(0, true));
    run, s := Take(run, s, Tick(FIVE_MINUTES_LATER));
    assert s.copies == [Copy(FIRST, Claimed(0, Releasing)), Copy(FIRST, InQueue), Copy(SECOND, InRetry)];
  }

  lemma DuplicateDelivered() returns (run: Run)
    ensures Reached(run, State(FIVE_MINUTES_LATER, Processed(0),
                               [Copy(FIRST, Claimed(0, Releasing)), Copy(FIRST, Finding), Copy(SECOND, InRetry)], [],
                               multiset{"m"}))
  {
    run := StalledAfterPublish();
    var s := After(INDEX, run);
    run, s := Take(run, s, Deliver(1));
    run, s := Take(run, s, Insert(1, FIVE_MINUTES_LATER));
    assert s.copies == [Copy(FIRST, Claimed(0, Releasing)), Copy(FIRST, Finding), Copy(SECOND, InRetry)];
  }

  lemma DuplicateReclaims() returns (run: Run)
    ensures Reached(run, State(FIVE_MINUTES_LATER, Processed(FIVE_MINUTES_LATER),
                               [Copy(FIRST, Claimed(0, Releasing)), Copy(FIRST, Claimed(FIVE_MINUTES_LATER, Running)),
                                Copy(SECOND, InRetry)], [], multiset{"m", "m"}))
  {
    run := DuplicateDelivered();
    var s := After(INDEX, run);
    run, s := Take(run, s, Find(1, FIVE_MINUTES_LATER));
    run, s := Take(run, s, Reclaim(1, FIVE_MINUTES_LATER));
    assert s.copies == [Copy(FIRST, Claimed(0, Releasing)), Copy(FIRST, Claimed(FIVE_MINUTES_LATER, Running)),
                        Copy(SECOND, InRetry)];
    assert s.records == Processed(FIVE_MINUTES_LATER);
  }

  /** A retry copy that finds no record commits. */
  lemma RetryCommits(run: Run, s: State, k: nat) returns (longer: Run)
    requires Reached(run, s) && At(s, k, InRetry) && Id(s, k) !in s.records
    ensures IsRun(INDEX, longer)
    ensures After(INDEX, longer).committed == s.committed + [Id(s, k)] && After(INDEX, longer).clock == s.clock
    ensures ReentersAtOnce(run) && Follows(run, Expire(k)) ==> ReentersAtOnce(longer)
  {
    var s' := s;
    longer, s' := Take(run, s', Expire(k));
    longer, s' := Take(longer, s', Deliver(k));
    assert s'.copies == s.copies[k := s.copies[k].(place := Inserting)];
    longer := QueuedCommits(longer, s', k);
  }

  lemma QueuedCommits(run: Run, s: State, k: nat) returns (longer: Run)
    requires Reached(run, s) && At(s, k, Inserting) && Id(s, k) !in s.records
    ensures IsRun(INDEX, longer)
    ensures After(INDEX, longer).committed == s.committed + [Id(s, k)] && After(INDEX, longer).clock == s.clock
    ensures ReentersAtOnce(run) && Follows(run, Insert(k, s.clock)) ==> ReentersAtOnce(longer)
  {
    var s' := s;
    longer, s' := Take(run, s', Insert(k, s.clock));
    longer, s' := Take(longer, s', HandlerSucceeds(k, s.clock));
  }

  lemma CompletedRecordDeleted() returns (run: Run)
    ensures Reached(run, State(FIVE_MINUTES_LATER, map[],
                               [Copy(FIRST, Released), Copy(FIRST, Succeeded), Copy(SECOND, InRetry)], ["m"],
                               multiset{"m", "m"}))
  {
    run := DuplicateReclaims();
    var s := After(INDEX, run);
    run, s := Take(run, s, HandlerSucceeds(1, FIVE_MINUTES_LATER));
    assert HasStatus(s.records, "m", Completed);
    run, s := Take(run, s, Release(0, true));
    assert s.copies == [Copy(FIRST, Released), Copy(FIRST, Succeeded), Copy(SECOND, InRetry)];
    assert s.records == map[] && s.committed == ["m"];
  }

  /** A worker schedules a retry and stalls.  Five minutes later a duplicate delivery reclaims the message and
      commits; then the stalled worker's release deletes the COMPLETED record, and the retry copy commits again. */
  lemma StaleReleaseCommitsTwice() returns (run: Run)
    ensures IsRun(INDEX, run) && After(INDEX, run).committed == ["m", "m"]
  {
    run := CompletedRecordDeleted();
    run := RetryCommits(run, After(INDEX, run), 2);
  }

  // ---- Two re-entries of a FAILED message interleave ----

  lemma RejectedOnce() returns (run: Run)
    ensures Reached(run, State(0, Ended(Failed, 0, 0),
                               [Copy(FIRST, DeadLettered), Copy(FIRST, InQueue), Copy(FIRST, InQueue)], [],
                               multiset{"m"}))
    ensures ReentersAtOnce(run) && run.Then? && !run.step.DeleteFailed?
  {
    run := StalledWorker();
    var s := After(INDEX, run);
    run, s := Take(run, s, Publish(FIRST));
    run, s := Take(run, s, HandlerThrows(0, false));
    run, s := Take(run, s, MarkFailed(0, 0));
    assert s.copies == [Copy(FIRST, DeadLettered), Copy(FIRST, InQueue), Copy(FIRST, InQueue)];
    assert s.records == Ended(Failed, 0, 0);
  }

  /** A copy is delivered and reads the FAILED record. */
  lemma ReadsFailed(run: Run, s: State, k: nat) returns (longer: Run)
    requires Reached(run, s) && At(s, k, InQueue) && HasStatus(s.records, Id(s, k), Failed)
    requires ReentersAtOnce(run) && run.Then? && !run.step.DeleteFailed?
    ensures Reached(longer, s.(copies := s.copies[k := s.copies[k].(place := Deleting)]))
    ensures ReentersAtOnce(longer) && longer.Then? && !longer.step.DeleteFailed?
  {
    var s' := s;
    longer, s' := Take(run, s', Deliver(k));
    longer, s' := Take(longer, s', Insert(k, s.clock));
    longer, s' := Take(longer, s', Find(k, s.clock));
    assert s'.copies == s.copies[k := s.copies[k].(place := Deleting)];
  }

  lemma BothReadFailed() returns (run: Run)
    ensures Reached(run, State(0, Ended(Failed, 0, 0),
                               [Copy(FIRST, DeadLettered), Copy(FIRST, Deleting), Copy(FIRST, Deleting)], [],
                               multiset{"m"}))
    ensures ReentersAtOnce(run) && run.Then? && !run.step.DeleteFailed?
  {
    run := RejectedOnce();
    run := ReadsFailed(run, After(INDEX, run), 1);
    run := ReadsFailed(run, After(INDEX, run), 2);
    assert After(INDEX, run).copies == [Copy(FIRST, DeadLettered), Copy(FIRST, Deleting), Copy(FIRST, Deleting)];
  }

  lemma BothReenter() returns (run: Run)
    ensures Reached(run, State(0, Processed(0),
                               [Copy(FIRST, DeadLettered), Copy(FIRST, Claimed(0, Running)),
                                Copy(FIRST, Claimed(0, Running))], [], multiset{"m", "m", "m"}))
    ensures ReentersAtOnce(run) && run.Then? && !run.step.DeleteFailed?
  {
    run := BothReadFailed();
    run := Reenters(run, After(INDEX, run), 1);
    run := Reenters(run, After(INDEX, run), 2);
    var s := After(INDEX, run);
    assert s.copies == [Copy(FIRST, DeadLettered), Copy(FIRST, Claimed(0, Running)), Copy(FIRST, Claimed(0, Running))];
    assert s.records == Processed(0);
  }

  /** Delete and insert, one right after the other. */
  lemma Reenters(run: Run, s: State, k: nat) returns (longer: Run)
    requires Reached(run, s) && At(s, k, Deleting) && s.copies[k].message == FIRST
    requires ReentersAtOnce(run) && run.Then? && !run.step.DeleteFailed?
    ensures Reached(longer, State(s.clock, (s.records - {"m"})["m" := Record(EVENT, Processing, s.clock, None)],
                                  s.copies[k := Copy(FIRST, Claimed(s.clock, Running))], s.committed,
                                  s.runs + multiset{"m"}))
    ensures ReentersAtOnce(longer) && longer.Then? && !longer.step.DeleteFailed?
  {
    var s' := s;
    longer, s' := Take(run, s', DeleteFailed(k));
    longer, s' := Take(longer, s', Recreate(k, s.clock));
    assert s'.copies == s.copies[k := Copy(FIRST, Claimed(s.clock, Running))];
  }

  lemma LoserFails() returns (run: Run)
    ensures Reached(run, State(0, Ended(Completed, 0, 0),
                               [Copy(FIRST, DeadLettered), Copy(FIRST, Succeeded), Copy(FIRST, Claimed(0, Retrying))],
                               ["m"], multiset{"m", "m", "m"}))
    ensures ReentersAtOnce(run) && run.Then? && !run.step.DeleteFailed?
  {
    run := BothReenter();
    var s := After(INDEX, run);
    run, s := Take(run, s, HandlerSucceeds(1, 0));
    run, s := Take(run, s, HandlerSucceeds(2, 0));
  }

  lemma LoserReleases() returns (run: Run)
    ensures Reached(run, State(0, map[],
                               [Copy(FIRST, DeadLettered), Copy(FIRST, Succeeded), Copy(FIRST, Released),
                                Copy(SECOND, InRetry)], ["m"], multiset{"m", "m", "m"}))
    ensures ReentersAtOnce(run) && run.Then? && !run.step.DeleteFailed?
  {
    DecisionsAreEvaluated();
    run := LoserFails();
    var s := After(INDEX, run);
    run, s := Take(run, s, PublishRetry(2, true));
    run, s := Take(run, s, Release(2, true));
    assert s.copies == [Copy(FIRST, DeadLettered), Copy(FIRST, Succeeded), Copy(FIRST, Released),
                        Copy(SECOND, InRetry)];
    assert s.records == map[];
  }

  /** Two deliveries both read FAILED.  One re-enters; the other deletes its live PROCESSING record and re-enters too.
      The first commits, the second cannot complete the record, retries, and deletes it.  The clock never moves, so no
      claim is ever stale; and each delete is followed at once by its insert, so making those two one step is no cure:
      the read has to be part of it. */
  lemma InterleavedReentriesCommitTwice() returns (run: Run)
    ensures IsRun(INDEX, run) && After(INDEX, run).committed == ["m", "m"] && After(INDEX, run).clock == 0
    ensures ReentersAtOnce(run)
  {
    run := LoserReleases();
    run := RetryCommits(run, After(INDEX, run), 3);
  }
}
