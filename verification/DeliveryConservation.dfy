/** Crash-free runs conserve messages and finish them.

    Crash-free here means: each message is published once, as attempt 1 under a fresh id; no worker dies; the delete
    after a scheduled retry succeeds, and happens before the retry delay ends. */
module DeliveryConservation {
  import opened IdempotencyRecords
  import opened Topology
  import opened DeliveryProtocol

  ghost predicate HasCopy(s: State, id: string) {
    exists k: nat :: k < |s.copies| && Id(s, k) == id
  }

  ghost predicate CrashFree(s: State, step: Step) {
    match step
    case Publish(message) => message.attempt == 1 && !HasCopy(s, message.id)
    case Crash(_) => false
    case Release(_, ok) => ok
    case Expire(k) => forall j: nat :: Holding(s, j, Releasing) && k < |s.copies| ==> Id(s, j) != Id(s, k)
    case _ => true
  }

  ghost predicate CrashFreeRun(index: map<string, EventRoute>, run: Run)
    requires IsRun(index, run)
  {
    run.Then? ==> CrashFreeRun(index, run.past) && CrashFree(After(index, run.past), run.step)
  }

  // ---- Where a message is ----

  /** The places that hold a message; a worker that has published the retry has handed it off. */
  predicate Holds(place: Place) {
    || place.InQueue? || place.Inserting? || place.InRetry? || place.DeadLettered? || place.Succeeded?
    || (place.Claimed? && !place.work.Releasing?)
  }

  predicate HandedOff(place: Place) {
    place.Claimed? && place.work.Releasing?
  }

  /** Handler runs of a message by the time its copy of this attempt is at this place. */
  function RunsBy(attempt: int, place: Place): int {
    if place.InQueue? || place.Inserting? || place.InRetry? then attempt - 1 else attempt
  }

  predicate RecordFits(records: Records, id: string, place: Place, releasePending: bool) {
    match place
    case InQueue => id !in records
    case Inserting => id !in records
    case InRetry => if releasePending then HasStatus(records, id, Processing) else id !in records
    case Succeeded => HasStatus(records, id, Completed)
    case DeadLettered => HasStatus(records, id, Failed)
    case _ => HasStatus(records, id, Processing)
  }

  /** Copy `h` alone holds message `id`.  Copy `r` is the worker still to release it, or `h` when there is none. */
  ghost predicate Tracked(index: map<string, EventRoute>, s: State, id: string, h: nat, r: nat) {
    && h < |s.copies| && r < |s.copies| && Id(s, h) == Id(s, r) == id
    && (forall k: nat :: k < |s.copies| && Id(s, k) == id && k != h && k != r ==> s.copies[k].place.Released?)
    && var message, place := s.copies[h].message, s.copies[h].place;
    && Holds(place)
    && (r != h ==> HandedOff(s.copies[r].place) && place.InRetry?)
    && 1 <= message.attempt <= MaxRuns(index, message.event)
    && s.runs[id] == RunsBy(message.attempt, place)
    && RecordFits(s.records, id, place, r != h)
    && (Holding(s, h, Retrying) ==> Decide(index, message.event, message.attempt).Retry?)
  }

  ghost predicate Unpublished(s: State, id: string) {
    !HasCopy(s, id) && id !in s.records && s.runs[id] == 0
  }

  ghost predicate Conserved(index: map<string, EventRoute>, s: State, id: string) {
    Unpublished(s, id) || exists h: nat, r: nat :: Tracked(index, s, id, h, r)
  }

  // ---- Every crash-free step keeps it ----

  /** The copy a step is about. */
  function Subject(s: State, step: Step): int {
    match step
    case Tick(_) => -1
    case Publish(_) => |s.copies|
    case Deliver(k) => k
    case Insert(k, _) => k
    case Find(k, _) => k
    case Reclaim(k, _) => k
    case DeleteFailed(k) => k
    case Recreate(k, _) => k
    case HandlerSucceeds(k, _) => k
    case HandlerThrows(k, _) => k
    case PublishRetry(k, _) => k
    case Release(k, _) => k
    case MarkFailed(k, _) => k
    case Expire(k) => k
    case Crash(k) => k
  }

  /** A step that is not about message `id`. */
  predicate IsForeign(s: State, step: Step, id: string) {
    var k := Subject(s, step);
    (0 <= k < |s.copies| ==> Id(s, k) != id) && (step.Publish? ==> step.message.id != id)
  }

  /** A step moves its own copy only. */
  lemma StepMovesOneCopy(index: map<string, EventRoute>, s: State, step: Step, id: string)
    requires Enabled(s, step) && IsForeign(s, step, id)
    ensures var s' := Next(index, s, step);
      && |s.copies| <= |s'.copies| <= |s.copies| + 1
      && (forall j: nat :: j < |s.copies| && Id(s, j) == id ==> s'.copies[j] == s.copies[j])
      && (forall j: nat :: j < |s'.copies| && Id(s', j) == id ==> j < |s.copies| && Id(s, j) == id)
  {
  }

  /** It changes records and run counts of that copy's message only. */
  lemma StepRecordsOneMessage(index: map<string, EventRoute>, s: State, step: Step, id: string)
    requires Enabled(s, step) && IsForeign(s, step, id)
    ensures var s' := Next(index, s, step);
      && (id in s'.records <==> id in s.records)
      && (id in s.records ==> s'.records[id] == s.records[id])
      && s'.runs[id] == s.runs[id]
  {
  }

  lemma TrackedIsLocal(index: map<string, EventRoute>, s: State, s': State, id: string, h: nat, r: nat)
    requires Tracked(index, s, id, h, r) && |s.copies| <= |s'.copies|
    requires forall j: nat :: j < |s.copies| && Id(s, j) == id ==> s'.copies[j] == s.copies[j]
    requires forall j: nat :: j < |s'.copies| && Id(s', j) == id ==> j < |s.copies| && Id(s, j) == id
    requires id in s'.records <==> id in s.records
    requires id in s.records ==> s'.records[id] == s.records[id]
    requires s'.runs[id] == s.runs[id]
    ensures Tracked(index, s', id, h, r)
  {
    assert Id(s, h) == id && Id(s, r) == id;
  }

  lemma OtherMessagesStayConserved(index: map<string, EventRoute>, s: State, step: Step, id: string)
    requires Enabled(s, step) && Conserved(index, s, id) && IsForeign(s, step, id)
    ensures Conserved(index, Next(index, s, step), id)
  {
    var s' := Next(index, s, step);
    StepMovesOneCopy(index, s, step, id);
    StepRecordsOneMessage(index, s, step, id);
    if Unpublished(s, id) {
      assert Unpublished(s', id);
    } else {
      var h: nat, r: nat :| Tracked(index, s, id, h, r);
      TrackedIsLocal(index, s, s', id, h, r);
    }
  }

  lemma PublishedMessageIsTracked(index: map<string, EventRoute>, s: State, message: Message)
    requires Unpublished(s, message.id) && message.attempt == 1
    ensures Tracked(index, Next(index, s, Publish(message)), message.id, |s.copies|, |s.copies|)
  {
    var s' := Next(index, s, Publish(message));
    assert forall k: nat :: k < |s.copies| ==> s'.copies[k] == s.copies[k] && Id(s, k) != message.id;
  }

  /** The holder's own steps, retry publication aside, leave it the holder. */
  lemma HolderStays(index: map<string, EventRoute>, s: State, step: Step, h: nat)
    requires Enabled(s, step) && CrashFree(s, step) && Subject(s, step) == h < |s.copies|
    requires Tracked(index, s, Id(s, h), h, h) && step != PublishRetry(h, true)
    ensures Tracked(index, Next(index, s, step), Id(s, h), h, h)
  {
    var s' := Next(index, s, step);
    assert forall k: nat :: k < |s.copies| && k != h ==> s'.copies[k] == s.copies[k];
  }

  lemma HandOff(index: map<string, EventRoute>, s: State, h: nat)
    requires Holding(s, h, Retrying) && Tracked(index, s, Id(s, h), h, h)
    ensures Tracked(index, Next(index, s, PublishRetry(h, true)), Id(s, h), |s.copies|, h)
  {
    var s' := Next(index, s, PublishRetry(h, true));
    assert forall k: nat :: k < |s.copies| && k != h ==> s'.copies[k] == s.copies[k];
  }

  lemma ReleaseDone(index: map<string, EventRoute>, s: State, h: nat, r: nat)
    requires Holding(s, r, Releasing) && r != h && Tracked(index, s, Id(s, r), h, r)
    ensures Tracked(index, Next(index, s, Release(r, true)), Id(s, r), h, h)
  {
    var s' := Next(index, s, Release(r, true));
    assert forall k: nat :: k < |s.copies| && k != r ==> s'.copies[k] == s.copies[k];
  }

  lemma StepConserves(index: map<string, EventRoute>, s: State, step: Step, id: string)
    requires Enabled(s, step) && CrashFree(s, step) && Conserved(index, s, id)
    ensures Conserved(index, Next(index, s, step), id)
  {
    var k := Subject(s, step);
    if step.Publish? && step.message.id == id {
      PublishedMessageIsTracked(index, s, step.message);
    } else if 0 <= k < |s.copies| && Id(s, k) == id {
      var h: nat, r: nat :| Tracked(index, s, id, h, r);
      if k != h {
        assert step == Release(k, true);
        ReleaseDone(index, s, h, k);
      } else if step == PublishRetry(h, true) {
        HandOff(index, s, h);
      } else {
        assert r != h ==> Holding(s, r, Releasing);
        HolderStays(index, s, step, h);
      }
    } else {
      OtherMessagesStayConserved(index, s, step, id);
    }
  }

  lemma {:induction false} RunConserves(index: map<string, EventRoute>, run: Run, id: string)
    requires IsRun(index, run) && CrashFreeRun(index, run)
    ensures Conserved(index, After(index, run), id)
  {
    if run.Then? {
      RunConserves(index, run.past, id);
      StepConserves(index, After(index, run.past), run.step, id);
    }
  }

  /** A published message is in exactly one place: one copy, and only one, holds it.  Its record says COMPLETED or
      FAILED exactly when that place is the end, and its handler ran at most once per configured delay plus one. */
  lemma EachMessageInOnePlace(index: map<string, EventRoute>, run: Run, id: string) returns (h: nat)
    requires IsRun(index, run) && CrashFreeRun(index, run) && HasCopy(After(index, run), id)
    ensures var s := After(index, run);
      && h < |s.copies| && Id(s, h) == id && Holds(s.copies[h].place)
      && (forall k: nat :: k < |s.copies| && Id(s, k) == id && Holds(s.copies[k].place) ==> k == h)
      && (s.copies[h].place.Succeeded? <==> HasStatus(s.records, id, Completed))
      && (s.copies[h].place.DeadLettered? <==> HasStatus(s.records, id, Failed))
      && s.runs[id] <= MaxRuns(index, s.copies[h].message.event)
  {
    RunConserves(index, run, id);
    var r: nat;
    h, r :| Tracked(index, After(index, run), id, h, r);
  }

  // ---- Every message comes to its end ----

  /** What is left to do for one copy: eight for each further attempt, plus the way to the end of this one. */
  function Weight(index: map<string, EventRoute>, copy: Copy): int {
    var left := 8 * (MaxRuns(index, copy.message.event) - copy.message.attempt);
    match copy.place
    case InRetry => left + 7
    case InQueue => left + 6
    case Inserting => left + 5
    case Claimed(_, Running) => left + 4
    case Claimed(_, Retrying) => left + 3
    case Claimed(_, Rejecting) => left + 1
    case Claimed(_, Releasing) => 1
    case _ => 0
  }

  function WorkLeft(index: map<string, EventRoute>, copies: seq<Copy>): int {
    if copies == [] then 0
    else WorkLeft(index, copies[..|copies| - 1]) + Weight(index, copies[|copies| - 1])
  }

  lemma {:induction false} WorkAfterMove(index: map<string, EventRoute>, copies: seq<Copy>, k: nat, copy: Copy)
    requires k < |copies|
    ensures WorkLeft(index, copies[k := copy])
         == WorkLeft(index, copies) - Weight(index, copies[k]) + Weight(index, copy)
  {
    var n := |copies| - 1;
    if k < n {
      assert copies[k := copy][..n] == copies[..n][k := copy];
      WorkAfterMove(index, copies[..n], k, copy);
    } else {
      assert copies[k := copy][..n] == copies[..n];
    }
  }

  lemma WorkAfterAppend(index: map<string, EventRoute>, copies: seq<Copy>, copy: Copy)
    ensures WorkLeft(index, copies + [copy]) == WorkLeft(index, copies) + Weight(index, copy)
  {
    assert (copies + [copy])[..|copies|] == copies;
  }

  predicate IsAction(step: Step) {
    !step.Tick? && !step.Publish?
  }

  lemma CopyWeighsLess(index: map<string, EventRoute>, s: State, step: Step, k: nat, h: nat, r: nat)
    requires Enabled(s, step) && CrashFree(s, step) && IsAction(step) && Subject(s, step) == k < |s.copies|
    requires Tracked(index, s, Id(s, k), h, r) && step != PublishRetry(k, true)
    ensures var s' := Next(index, s, step);
      && s'.copies == s.copies[k := s'.copies[k]]
      && Weight(index, s'.copies[k]) < Weight(index, s.copies[k])
  {
  }

  lemma HandOffWeighsLess(index: map<string, EventRoute>, s: State, k: nat)
    requires Holding(s, k, Retrying)
    ensures WorkLeft(index, Next(index, s, PublishRetry(k, true)).copies) < WorkLeft(index, s.copies)
  {
    var message := s.copies[k].message;
    var moved := s.copies[k := s.copies[k].(place := s.copies[k].place.(work := Releasing))];
    WorkAfterMove(index, s.copies, k, moved[k]);
    WorkAfterAppend(index, moved, Copy(message.(attempt := message.attempt + 1), InRetry));
  }

  /** Every worker or broker action leaves strictly less to do. */
  lemma ActionLeavesLess(index: map<string, EventRoute>, s: State, step: Step)
    requires Enabled(s, step) && CrashFree(s, step) && IsAction(step)
    requires 0 <= Subject(s, step) < |s.copies| && Conserved(index, s, Id(s, Subject(s, step)))
    ensures WorkLeft(index, Next(index, s, step).copies) < WorkLeft(index, s.copies)
  {
    var k := Subject(s, step);
    if step == PublishRetry(k, true) {
      HandOffWeighsLess(index, s, k);
    } else {
      assert HasCopy(s, Id(s, k));
      var h: nat, r: nat :| Tracked(index, s, Id(s, k), h, r);
      CopyWeighsLess(index, s, step, k, h, r);
      WorkAfterMove(index, s.copies, k, Next(index, s, step).copies[k]);
    }
  }

  function Actions(run: Run): nat {
    if run.Start? then 0 else Actions(run.past) + (if IsAction(run.step) then 1 else 0)
  }

  /** What the messages published so far may cost: eight actions for each handler run allowed, less two. */
  function Budget(index: map<string, EventRoute>, run: Run): int {
    if run.Start? then 0
    else
      var published := if run.step.Publish? then 8 * MaxRuns(index, run.step.message.event) - 2 else 0;
      Budget(index, run.past) + published
  }

  lemma {:induction false} ActionsWithinBudget(index: map<string, EventRoute>, run: Run)
    requires IsRun(index, run) && CrashFreeRun(index, run)
    ensures Actions(run) + WorkLeft(index, After(index, run).copies) <= Budget(index, run)
  {
    if run.Then? {
      var s, step := After(index, run.past), run.step;
      ActionsWithinBudget(index, run.past);
      if step.Publish? {
        WorkAfterAppend(index, s.copies, Copy(step.message, InQueue));
      } else if IsAction(step) {
        RunConserves(index, run.past, Id(s, Subject(s, step)));
        ActionLeavesLess(index, s, step);
      }
    }
  }

  lemma {:induction false} WorkIsNonNegative(index: map<string, EventRoute>, copies: seq<Copy>)
    requires forall k :: 0 <= k < |copies| ==> Weight(index, copies[k]) >= 0
    ensures WorkLeft(index, copies) >= 0
  {
    if copies != [] {
      WorkIsNonNegative(index, copies[..|copies| - 1]);
    }
  }

  lemma TrackedWeighs(index: map<string, EventRoute>, s: State, id: string, h: nat, r: nat, k: nat)
    requires Tracked(index, s, id, h, r) && k < |s.copies| && Id(s, k) == id
    ensures Weight(index, s.copies[k]) >= 0
  {
  }

  lemma WeightsAreNonNegative(index: map<string, EventRoute>, run: Run, k: nat)
    requires IsRun(index, run) && CrashFreeRun(index, run) && k < |After(index, run).copies|
    ensures Weight(index, After(index, run).copies[k]) >= 0
  {
    var s := After(index, run);
    var id := Id(s, k);
    RunConserves(index, run, id);
    assert !Unpublished(s, id);
    var h: nat, r: nat :| Tracked(index, s, id, h, r);
    TrackedWeighs(index, s, id, h, r, k);
  }

  /** The number of actions in any crash-free run is bounded by what was published. */
  lemma CrashFreeRunsAreBounded(index: map<string, EventRoute>, run: Run)
    requires IsRun(index, run) && CrashFreeRun(index, run)
    ensures Actions(run) <= Budget(index, run)
  {
    var s := After(index, run);
    forall k | 0 <= k < |s.copies|
      ensures Weight(index, s.copies[k]) >= 0
    {
      WeightsAreNonNegative(index, run, k);
    }
    WorkIsNonNegative(index, s.copies);
    ActionsWithinBudget(index, run);
  }

  /** While a message is not at its end, some action of a crash-free run can be taken for it.  With the bound above,
      every message reaches COMPLETED or its dead-letter queue once actions stop. */
  lemma UnfinishedMessageCanMove(index: map<string, EventRoute>, run: Run, id: string) returns (step: Step)
    requires IsRun(index, run) && CrashFreeRun(index, run) && HasCopy(After(index, run), id)
    requires !HasStatus(After(index, run).records, id, Completed) && !HasStatus(After(index, run).records, id, Failed)
    ensures IsAction(step) && Enabled(After(index, run), step) && CrashFree(After(index, run), step)
    ensures var s := After(index, run); 0 <= Subject(s, step) < |s.copies| && Id(s, Subject(s, step)) == id
  {
    var s := After(index, run);
    RunConserves(index, run, id);
    var h: nat, r: nat :| Tracked(index, s, id, h, r);
    match s.copies[h].place {
      case InQueue => step := Deliver(h);
      case Inserting => step := Insert(h, s.clock);
      case Claimed(_, Running) => step := HandlerThrows(h, false);
      case Claimed(_, Retrying) => step := PublishRetry(h, true);
      case Claimed(_, Rejecting) => step := MarkFailed(h, s.clock);
      case InRetry => step := if r == h then Expire(h) else Release(r, true);
    }
  }
}
