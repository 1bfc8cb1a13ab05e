/** Runs that lose or multiply a message.  Each breaks one clause of `CrashFree` at one step, and is crash-free up to
    there. */
module ConservationHazards {
  import opened IdempotencyRecords
  import opened DeliveryProtocol
  import opened DeliveryConservation
  import DeliveryHazards

  const FIRST := DeliveryHazards.FIRST
  const SECOND := DeliveryHazards.SECOND
  const INDEX := DeliveryHazards.INDEX

  ghost predicate Reached(run: Run, s: State) {
    IsRun(INDEX, run) && After(INDEX, run) == s
  }

  ghost predicate CrashFreeTo(run: Run, s: State) {
    Reached(run, s) && CrashFreeRun(INDEX, run)
  }

  /** Appends one step. */
  lemma Take(run: Run, s: State, step: Step) returns (longer: Run, s': State)
    requires Reached(run, s) && Enabled(s, step)
    ensures s' == Next(INDEX, s, step) && Reached(longer, s') && longer == Then(run, step)
    ensures CrashFreeTo(run, s) && CrashFree(s, step) ==> CrashFreeTo(longer, s')
  {
    longer, s' := Then(run, step), Next(INDEX, s, step);
  }

  /** `run` goes on from a crash-free `before` with a step that is not crash-free. */
  ghost predicate BreaksAt(run: Run, before: Run, step: Step) {
    && IsRun(INDEX, before) && CrashFreeRun(INDEX, before)
    && Enabled(After(INDEX, before), step) && !CrashFree(After(INDEX, before), step)
    && Extends(run, Then(before, step))
  }

  lemma Claims() returns (run: Run)
    ensures CrashFreeTo(run, State(0, DeliveryHazards.Processed(0), [Copy(FIRST, Claimed(0, Running))], [],
                                   multiset{"m"}))
  {
    var s := EMPTY;
    run := Start;
    run, s := Take(run, s, Publish(FIRST));
    run, s := Take(run, s, Deliver(0));
    run, s := Take(run, s, Insert(0, 0));
    assert s.copies == [Copy(FIRST, Claimed(0, Running))];
  }

  lemma PublishesRetry() returns (run: Run)
    ensures CrashFreeTo(run, State(0, DeliveryHazards.Processed(0),
                                   [Copy(FIRST, Claimed(0, Releasing)), Copy(SECOND, InRetry)], [], multiset{"m"}))
  {
    DeliveryHazards.DecisionsAreEvaluated();
    run := Claims();
    var s := After(INDEX, run);
    run, s := Take(run, s, HandlerThrows(0, true));
    run, s := Take(run, s, PublishRetry(0, true));
    assert s.copies == [Copy(FIRST, Claimed(0, Releasing)), Copy(SECOND, InRetry)];
  }

  /** A copy in the queue that finds its message's record fresh and PROCESSING is acked. */
  lemma FoundActive(run: Run, s: State, k: nat) returns (longer: Run)
    requires Reached(run, s) && At(s, k, InQueue)
    requires HasStatus(s.records, Id(s, k), Processing) && s.records[Id(s, k)].startedAt == s.clock
    ensures Reached(longer, s.(copies := s.copies[k := s.copies[k].(place := Ignored)]))
    ensures forall earlier :: Extends(run, earlier) ==> Extends(longer, earlier)
  {
    var s' := s;
    var first, second;
    first, s' := Take(run, s', Deliver(k));
    second, s' := Take(first, s', Insert(k, s.clock));
    forall earlier | Extends(run, earlier)
      ensures Extends(second, earlier)
    {
      assert Extends(first, earlier);
    }
    var third;
    third, s' := Take(second, s', Find(k, s.clock));
    longer, s' := Take(third, s', Reclaim(k, s.clock));
    forall earlier | Extends(second, earlier)
      ensures Extends(longer, earlier)
    {
      assert Extends(third, earlier);
    }
    assert s'.copies == s.copies[k := s.copies[k].(place := Ignored)];
  }

  /** Whatever became of the first copy, a further one that finds its fresh PROCESSING record is acked. */
  lemma DuplicateIsIgnored(run: Run, place: Place) returns (longer: Run)
    requires Reached(run, State(0, DeliveryHazards.Processed(0), [Copy(FIRST, place)], [], multiset{"m"}))
    ensures Extends(longer, run) && Extends(longer, Then(run, Publish(FIRST)))
    ensures Reached(longer, State(0, DeliveryHazards.Processed(0), [Copy(FIRST, place), Copy(FIRST, Ignored)], [],
                                  multiset{"m"}))
  {
    var s := After(INDEX, run);
    longer, s := Take(run, s, Publish(FIRST));
    assert Extends(longer, run) && Extends(longer, Then(run, Publish(FIRST)));
    longer := FoundActive(longer, s, 1);
    assert After(INDEX, longer).copies == [Copy(FIRST, place), Copy(FIRST, Ignored)];
  }

  /** Clause broken: no worker crashes.  A worker dies holding the claim.  The redelivery, a further copy, arrives
      within five minutes, finds the record PROCESSING and not stale, and is acked: nothing holds the
      message any more. */
  lemma CrashLosesMessage() returns (run: Run, before: Run)
    ensures IsRun(INDEX, run) && BreaksAt(run, before, Crash(0))
    ensures var s := After(INDEX, run);
      && HasStatus(s.records, "m", Processing) && s.committed == []
      && s.copies == [Copy(FIRST, Lost), Copy(FIRST, Ignored)]
  {
    before := Claims();
    var s := After(INDEX, before);
    var crashed;
    crashed, s := Take(before, s, Crash(0));
    assert s.copies == [Copy(FIRST, Lost)];
    run := DuplicateIsIgnored(crashed, Lost);
  }

  /** Clause broken: the delete succeeds.  The delete after a published retry fails: the message is both dead-lettered
      and waiting in the retry queue. */
  lemma FailedReleaseDuplicates() returns (run: Run, before: Run)
    ensures IsRun(INDEX, run) && BreaksAt(run, before, Release(0, false))
    ensures After(INDEX, run).copies == [Copy(FIRST, DeadLettered), Copy(SECOND, InRetry)]
  {
    before := PublishesRetry();
    var s := After(INDEX, before);
    run, s := Take(before, s, Release(0, false));
    run, s := Take(run, s, MarkFailed(0, 0));
    assert s.copies == [Copy(FIRST, DeadLettered), Copy(SECOND, InRetry)];
    assert Extends(run.past, Then(before, Release(0, false)));
  }

  lemma RetryIsIgnored() returns (run: Run, before: Run)
    ensures BreaksAt(run, before, Expire(1))
    ensures Reached(run, State(0, DeliveryHazards.Processed(0),
                               [Copy(FIRST, Claimed(0, Releasing)), Copy(SECOND, Ignored)], [], multiset{"m"}))
  {
    before := PublishesRetry();
    var s := After(INDEX, before);
    assert Holding(s, 0, Releasing) && Id(s, 0) == Id(s, 1);
    run, s := Take(before, s, Expire(1));
    assert Extends(run, Then(before, Expire(1)));
    run := FoundActive(run, s, 1);
    assert After(INDEX, run).copies == [Copy(FIRST, Claimed(0, Releasing)), Copy(SECOND, Ignored)];
  }

  /** Clause broken: the delete is done before the retry's delay ends.  The retry comes back early, finds the record
      still PROCESSING and is acked; then the release deletes the record.  Nothing holds the message, and no record of
      it is left. */
  lemma EarlyRetryIsLost() returns (run: Run, before: Run)
    ensures IsRun(INDEX, run) && BreaksAt(run, before, Expire(1))
    ensures var s := After(INDEX, run);
      s.records == map[] && s.committed == [] && s.copies == [Copy(FIRST, Released), Copy(SECOND, Ignored)]
  {
    run, before := RetryIsIgnored();
    var s := After(INDEX, run);
    run, s := Take(run, s, Release(0, true));
    assert s.copies == [Copy(FIRST, Released), Copy(SECOND, Ignored)] && s.records == map[];
  }

  /** Clause broken: an id is published once.  The same message published again is acked as a duplicate of the first, so
      two copies stand for it. */
  lemma SecondPublicationIsIgnored() returns (run: Run, before: Run)
    ensures IsRun(INDEX, run) && BreaksAt(run, before, Publish(FIRST))
    ensures After(INDEX, run).copies == [Copy(FIRST, Claimed(0, Running)), Copy(FIRST, Ignored)]
  {
    before := Claims();
    var s := After(INDEX, before);
    assert HasCopy(s, FIRST.id) by {
      assert Id(s, 0) == FIRST.id;
    }
    run := DuplicateIsIgnored(before, Claimed(0, Running));
  }
}
