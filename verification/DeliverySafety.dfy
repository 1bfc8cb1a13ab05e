/** At most one committed handler transaction per message, over every interleaving.

    Two assumptions, both on when a worker acts, and both conditions the code could check before the operation:
    a worker that holds a claim completes, releases or fails the record within the claim's five minutes; and a
    record read as FAILED is still FAILED, or gone, when the worker that read it deletes it. */
module DeliverySafety {
  import opened IdempotencyRecords
  import opened Topology
  import opened DeliveryProtocol

  predicate ClaimCurrent(s: State, k: nat) {
    && k < |s.copies|
    && s.copies[k].place.Claimed?
    && s.clock <= s.copies[k].place.startedAt + PROCESSING_TIMEOUT_MS
  }

  predicate Timely(s: State, step: Step) {
    match step
    case HandlerSucceeds(k, _) => ClaimCurrent(s, k)
    case Release(k, _) => ClaimCurrent(s, k)
    case MarkFailed(k, _) => ClaimCurrent(s, k)
    case DeleteFailed(k) => k < |s.copies| && (Id(s, k) in s.records ==> s.records[Id(s, k)].status == Failed)
    case _ => true
  }

  predicate TimelyRun(index: map<string, EventRoute>, run: Run)
    requires IsRun(index, run)
  {
    run.Then? ==> TimelyRun(index, run.past) && Timely(After(index, run.past), run.step)
  }

  // ---- The invariant ----

  /** At most one live claim per message. */
  ghost predicate Exclusive(s: State) {
    forall j: nat, k: nat :: ClaimCurrent(s, j) && ClaimCurrent(s, k) && j != k ==> Id(s, j) != Id(s, k)
  }

  /** A live claim owns its PROCESSING record. */
  ghost predicate Owned(s: State) {
    forall k: nat :: ClaimCurrent(s, k) ==>
      && HasStatus(s.records, Id(s, k), Processing)
      && s.records[Id(s, k)].startedAt == s.copies[k].place.startedAt
  }

  ghost predicate ReadsInPast(s: State) {
    forall k: nat :: k < |s.copies| && s.copies[k].place.Reclaiming? ==> s.copies[k].place.readAt <= s.clock
  }

  ghost predicate NoRepeats(log: seq<string>) {
    forall i, j :: 0 <= i < j < |log| ==> log[i] != log[j]
  }

  /** The committed transactions are those of the COMPLETED records, once each. */
  ghost predicate CommittedOnce(s: State) {
    && NoRepeats(s.committed)
    && forall id :: id in s.committed <==> HasStatus(s.records, id, Completed)
  }

  ghost predicate Inv(s: State) {
    Exclusive(s) && Owned(s) && ReadsInPast(s) && CommittedOnce(s)
  }

  // ---- Every step keeps it ----

  /** A step that only moves a copy and claims nothing. */
  lemma MoveKeepsInv(s: State, k: nat, place: Place)
    requires Inv(s) && k < |s.copies|
    requires place.Claimed? ==> s.copies[k].place.Claimed? && s.copies[k].place.startedAt == place.startedAt
    requires place.Reclaiming? ==> place.readAt <= s.clock
    ensures Inv(Moved(s, k, place))
  {
    var s' := Moved(s, k, place);
    assert forall j: nat :: ClaimCurrent(s', j) ==> ClaimCurrent(s, j) && Id(s', j) == Id(s, j);
  }

  /** A fresh claim, written where no live claim was. */
  lemma ClaimKeepsInv(s: State, k: nat, records: Records, startedAt: int)
    requires Inv(s) && k < |s.copies| && !s.copies[k].place.Claimed?
    requires SameElsewhere(s.records, records, Id(s, k))
    requires HasStatus(records, Id(s, k), Processing) && records[Id(s, k)].startedAt == startedAt
    requires !HasStatus(s.records, Id(s, k), Completed)
    requires forall j: nat :: ClaimCurrent(s, j) ==> Id(s, j) != Id(s, k)
    ensures Inv(Claiming(s, k, records, startedAt))
  {
    var s' := Claiming(s, k, records, startedAt);
    assert forall j: nat :: j != k && ClaimCurrent(s', j) ==> ClaimCurrent(s, j) && Id(s', j) == Id(s, j);
    assert Id(s', k) == Id(s, k);
  }

  /** A live claim ends, and the record it owned goes or stops being PROCESSING. */
  lemma EndOfClaimKeepsInv(s: State, k: nat, place: Place, records: Records)
    requires Inv(s) && ClaimCurrent(s, k) && !place.Claimed? && !place.Reclaiming?
    requires SameElsewhere(s.records, records, Id(s, k)) && !HasStatus(records, Id(s, k), Completed)
    ensures Inv(Moved(s, k, place).(records := records))
  {
    var s' := Moved(s, k, place).(records := records);
    assert forall j: nat :: ClaimCurrent(s', j) ==> j != k && ClaimCurrent(s, j) && Id(s', j) == Id(s, j);
  }

  lemma CommitKeepsInv(index: map<string, EventRoute>, s: State, k: nat, at: int)
    requires Inv(s) && Holding(s, k, Running) && ClaimCurrent(s, k)
    ensures Inv(Next(index, s, HandlerSucceeds(k, at)))
  {
    var s' := Next(index, s, HandlerSucceeds(k, at));
    assert Id(s, k) !in s.committed;
    assert forall j: nat :: ClaimCurrent(s', j) ==> j != k && ClaimCurrent(s, j) && Id(s', j) == Id(s, j);
  }

  predicate Claims(step: Step) {
    step.Insert? || step.Reclaim? || step.Recreate?
  }

  lemma ClaimStepKeepsInv(index: map<string, EventRoute>, s: State, step: Step)
    requires Inv(s) && Enabled(s, step) && Timely(s, step) && Claims(step)
    ensures Inv(Next(index, s, step))
  {
    var s', k := Next(index, s, step), step.k;
    match step {
      case Insert(_, at) =>
        if Id(s, k) in s.records {
          MoveKeepsInv(s, k, Finding);
        } else {
          ClaimKeepsInv(s, k, s'.records, at);
        }
      case Reclaim(_, at) =>
        if Stale(s.records, Id(s, k), s.copies[k].place.readAt - PROCESSING_TIMEOUT_MS) {
          ClaimKeepsInv(s, k, s'.records, at);
        } else {
          MoveKeepsInv(s, k, Ignored);
        }
      case Recreate(_, at) =>
        if Id(s, k) in s.records {
          MoveKeepsInv(s, k, Ignored);
        } else {
          ClaimKeepsInv(s, k, s'.records, at);
        }
    }
  }

  /** The clock, a publication and a scheduled retry touch no record and no claim. */
  lemma QuietStepKeepsInv(index: map<string, EventRoute>, s: State, step: Step)
    requires Inv(s) && Enabled(s, step) && Timely(s, step)
    requires step.Tick? || step.Publish? || step.PublishRetry?
    ensures Inv(Next(index, s, step))
  {
    var s' := Next(index, s, step);
    assert forall j: nat :: ClaimCurrent(s', j) ==> ClaimCurrent(s, j) && Id(s', j) == Id(s, j);
  }

  lemma StepKeepsInv(index: map<string, EventRoute>, s: State, step: Step)
    requires Inv(s) && Enabled(s, step) && Timely(s, step)
    ensures Inv(Next(index, s, step))
  {
    var s' := Next(index, s, step);
    match step {
      case Deliver(k) => MoveKeepsInv(s, k, Inserting);
      case Find(k, readAt) => MoveKeepsInv(s, k, s'.copies[k].place);
      case DeleteFailed(k) =>
        MoveKeepsInv(s, k, Recreating);
      case HandlerSucceeds(k, at) => CommitKeepsInv(index, s, k, at);
      case HandlerThrows(k, _) => MoveKeepsInv(s, k, s'.copies[k].place);
      case Release(k, ok) =>
        if ok {
          EndOfClaimKeepsInv(s, k, Released, s'.records);
        } else {
          MoveKeepsInv(s, k, s'.copies[k].place);
        }
      case MarkFailed(k, _) => EndOfClaimKeepsInv(s, k, DeadLettered, s'.records);
      case Expire(k) => MoveKeepsInv(s, k, InQueue);
      case Crash(k) => MoveKeepsInv(s, k, Lost);
      case _ =>
        if Claims(step) {
          ClaimStepKeepsInv(index, s, step);
        } else {
          QuietStepKeepsInv(index, s, step);
        }
    }
  }

  lemma {:induction false} RunKeepsInv(index: map<string, EventRoute>, run: Run)
    requires IsRun(index, run) && TimelyRun(index, run)
    ensures Inv(After(index, run))
  {
    if run.Then? {
      RunKeepsInv(index, run.past);
      StepKeepsInv(index, After(index, run.past), run.step);
    }
  }

  // ---- The results ----

  /** Each message id has at most one committed handler transaction. */
  lemma AtMostOneCommit(index: map<string, EventRoute>, run: Run, id: string)
    requires IsRun(index, run) && TimelyRun(index, run)
    ensures multiset(After(index, run).committed)[id] <= 1
    ensures id in After(index, run).committed <==> HasStatus(After(index, run).records, id, Completed)
  {
    RunKeepsInv(index, run);
    NoRepeatsCountsOnce(After(index, run).committed, id);
  }

  lemma {:induction false} NoRepeatsCountsOnce(log: seq<string>, id: string)
    requires NoRepeats(log)
    ensures multiset(log)[id] <= 1
  {
    if log != [] {
      var n := |log| - 1;
      assert log == log[..n] + [log[n]];
      NoRepeatsCountsOnce(log[..n], id);
      assert log[n] !in log[..n];
    }
  }

  /** One step leaves a COMPLETED record as it is. */
  lemma StepKeepsCompleted(index: map<string, EventRoute>, s: State, step: Step, id: string)
    requires Inv(s) && Enabled(s, step) && Timely(s, step)
    requires HasStatus(s.records, id, Completed)
    ensures var s' := Next(index, s, step); id in s'.records && s'.records[id] == s.records[id]
  {
    match step {
      case HandlerSucceeds(k, _) => assert ClaimCurrent(s, k);
      case Release(k, _) => assert ClaimCurrent(s, k);
      case MarkFailed(k, _) => assert ClaimCurrent(s, k);
      case _ =>
    }
  }

  predicate Deletes(s: State, step: Step, id: string) {
    match step
    case DeleteFailed(k) => k < |s.copies| && Id(s, k) == id
    case Release(k, ok) => ok && k < |s.copies| && Id(s, k) == id
    case _ => false
  }

  /** Timing aside, a step changes a COMPLETED record exactly when it is one of the unconditional deletes. */
  lemma CompletedLostExactly(index: map<string, EventRoute>, s: State, step: Step, id: string)
    requires Enabled(s, step) && HasStatus(s.records, id, Completed)
    ensures var s' := Next(index, s, step);
      (id in s'.records && s'.records[id] == s.records[id]) <==> !Deletes(s, step, id)
  {
  }

  /** A COMPLETED record never changes again, however the run goes on. */
  lemma {:induction false} CompletedForever(
    index: map<string, EventRoute>, earlier: Run, later: Run, id: string)
    requires IsRun(index, later) && TimelyRun(index, later) && IsRun(index, earlier) && Extends(later, earlier)
    requires HasStatus(After(index, earlier).records, id, Completed)
    ensures id in After(index, later).records
    ensures After(index, later).records[id] == After(index, earlier).records[id]
  {
    if later != earlier {
      CompletedForever(index, earlier, later.past, id);
      RunKeepsInv(index, later.past);
      StepKeepsCompleted(index, After(index, later.past), later.step, id);
    }
  }

  /** At most one live worker owns a PROCESSING record. */
  lemma OneLiveOwner(index: map<string, EventRoute>, run: Run, j: nat, k: nat)
    requires IsRun(index, run) && TimelyRun(index, run)
    requires ClaimCurrent(After(index, run), j) && ClaimCurrent(After(index, run), k)
    requires Id(After(index, run), j) == Id(After(index, run), k)
    ensures j == k
    ensures HasStatus(After(index, run).records, Id(After(index, run), k), Processing)
    ensures After(index, run).records[Id(After(index, run), k)].startedAt == After(index, run).copies[k].place.startedAt
  {
    RunKeepsInv(index, run);
  }
}
