/** Conservation fails exactly where a step is not crash-free: the assumptions of `DeliveryConservation` cannot be
    weakened, step by step. */
module ConservationExact {
  import opened Topology
  import opened DeliveryProtocol
  import opened DeliveryConservation

  ghost predicate IsTracked(index: map<string, EventRoute>, s: State, id: string) {
    exists h: nat, r: nat :: Tracked(index, s, id, h, r)
  }

  /** Two copies of a message, neither released nor about to be, cannot be tracked. */
  lemma TwoHoldersUntracked(index: map<string, EventRoute>, s: State, id: string, j: nat, k: nat)
    requires j < |s.copies| && k < |s.copies| && j != k && Id(s, j) == Id(s, k) == id
    requires !s.copies[j].place.Released? && !HandedOff(s.copies[j].place)
    requires !s.copies[k].place.Released? && !HandedOff(s.copies[k].place)
    ensures !IsTracked(index, s, id)
  {
  }

  /** Nor can a copy that is neither at a holding place, released, nor about to be. */
  lemma StrayCopyUntracked(index: map<string, EventRoute>, s: State, id: string, k: nat)
    requires k < |s.copies| && Id(s, k) == id
    requires !s.copies[k].place.Released? && !HandedOff(s.copies[k].place) && !Holds(s.copies[k].place)
    ensures !IsTracked(index, s, id)
  {
  }

  /** Nor a copy about to be released beside one that is not in its retry queue. */
  lemma HandedOffBesideUntracked(index: map<string, EventRoute>, s: State, id: string, j: nat, k: nat)
    requires j < |s.copies| && k < |s.copies| && Id(s, j) == Id(s, k) == id
    requires HandedOff(s.copies[j].place)
    requires !s.copies[k].place.Released? && !HandedOff(s.copies[k].place) && !s.copies[k].place.InRetry?
    ensures !IsTracked(index, s, id)
  {
  }

  /** A second publication of an id, or one that is not attempt 1. */
  lemma BadPublicationLoses(index: map<string, EventRoute>, s: State, message: Message)
    requires Conserved(index, s, message.id) && !CrashFree(s, Publish(message))
    ensures !IsTracked(index, Next(index, s, Publish(message)), message.id)
  {
    var s' := Next(index, s, Publish(message));
    var id, n := message.id, |s.copies|;
    if HasCopy(s, id) {
      var h: nat, r: nat :| Tracked(index, s, id, h, r);
      assert s'.copies[h] == s.copies[h] && s'.copies[r] == s.copies[r];
      if r != h {
        HandedOffBesideUntracked(index, s', id, r, n);
      } else {
        TwoHoldersUntracked(index, s', id, h, n);
      }
    } else {
      assert Unpublished(s, id);
      assert forall k: nat :: k < n ==> s'.copies[k] == s.copies[k] && Id(s, k) != id;
    }
  }

  /** A release that fails after the retry was published. */
  lemma FailedReleaseLoses(index: map<string, EventRoute>, s: State, k: nat)
    requires Holding(s, k, Releasing) && Conserved(index, s, Id(s, k))
    ensures !IsTracked(index, Next(index, s, Release(k, false)), Id(s, k))
  {
    assert HasCopy(s, Id(s, k));
    var h: nat, r: nat :| Tracked(index, s, Id(s, k), h, r);
    assert k == r != h;
    TwoHoldersUntracked(index, Next(index, s, Release(k, false)), Id(s, k), h, k);
  }

  /** A retry that comes back while its predecessor is still to be released. */
  lemma EarlyExpiryLoses(index: map<string, EventRoute>, s: State, k: nat)
    requires At(s, k, InRetry) && Conserved(index, s, Id(s, k)) && !CrashFree(s, Expire(k))
    ensures !IsTracked(index, Next(index, s, Expire(k)), Id(s, k))
  {
    var j: nat :| Holding(s, j, Releasing) && Id(s, j) == Id(s, k);
    HandedOffBesideUntracked(index, Next(index, s, Expire(k)), Id(s, k), j, k);
  }

  /** A step about a message keeps it conserved exactly when the step is crash-free. */
  lemma StepConservesExactly(index: map<string, EventRoute>, s: State, step: Step, id: string)
    requires Enabled(s, step) && Conserved(index, s, id) && !IsForeign(s, step, id)
    ensures Conserved(index, Next(index, s, step), id) <==> CrashFree(s, step)
  {
    if CrashFree(s, step) {
      StepConserves(index, s, step, id);
    } else {
      var s', k := Next(index, s, step), Subject(s, step);
      assert 0 <= k < |s'.copies| && Id(s', k) == id;
      match step {
        case Publish(message) => BadPublicationLoses(index, s, message);
        case Crash(_) => StrayCopyUntracked(index, s', id, k);
        case Release(_, _) => FailedReleaseLoses(index, s, k);
        case Expire(_) => EarlyExpiryLoses(index, s, k);
      }
    }
  }

  // ---- Over runs ----

  ghost predicate AllConserved(index: map<string, EventRoute>, s: State) {
    forall id: string :: Conserved(index, s, id)
  }

  /** Every message is conserved at every moment of the run. */
  ghost predicate ConservedRun(index: map<string, EventRoute>, run: Run)
    requires IsRun(index, run)
  {
    && AllConserved(index, After(index, run))
    && (run.Then? ==> ConservedRun(index, run.past))
  }

  /** The message a step is about, if any. */
  function About(s: State, step: Step): string
    requires Enabled(s, step) && !step.Tick?
  {
    if step.Publish? then step.message.id else Id(s, Subject(s, step))
  }

  /** A run conserves every message throughout exactly when all its steps are crash-free. */
  lemma {:induction false} RunConservesExactly(index: map<string, EventRoute>, run: Run)
    requires IsRun(index, run)
    ensures ConservedRun(index, run) <==> CrashFreeRun(index, run)
  {
    if run.Then? {
      var s, step := After(index, run.past), run.step;
      RunConservesExactly(index, run.past);
      if CrashFreeRun(index, run) {
        forall id: string
          ensures Conserved(index, After(index, run), id)
        {
          RunConserves(index, run, id);
        }
      } else if ConservedRun(index, run.past) {
        StepConservesExactly(index, s, step, About(s, step));
        assert !Conserved(index, After(index, run), About(s, step));
      }
    } else {
      assert forall id: string :: Unpublished(After(index, run), id);
    }
  }
}
