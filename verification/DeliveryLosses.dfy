/** Without any timing assumption: how often a message commits, over every run.

    A COMPLETED record can only be lost to the unconditional delete.  Whether the record about to be deleted is
    COMPLETED is something the caller could read first; every commit beyond the first is paid for by one such loss. */
module DeliveryLosses {
  import opened IdempotencyRecords
  import opened Topology
  import opened DeliveryProtocol
  import opened DeliverySafety

  /** The step deletes a COMPLETED record of this message. */
  predicate Loses(s: State, step: Step, id: string) {
    HasStatus(s.records, id, Completed) && Deletes(s, step, id)
  }

  /** How many steps of the run did. */
  function Losses(index: map<string, EventRoute>, run: Run, id: string): nat
    requires IsRun(index, run)
  {
    if run.Start? then 0
    else Losses(index, run.past, id) + if Loses(After(index, run.past), run.step, id) then 1 else 0
  }

  function Done(s: State, id: string): nat {
    if HasStatus(s.records, id, Completed) then 1 else 0
  }

  function Commits(s: State, id: string): nat {
    multiset(s.committed)[id]
  }

  lemma CommitBalances(index: map<string, EventRoute>, s: State, k: nat, at: int, id: string)
    requires Holding(s, k, Running)
    ensures var s' := Next(index, s, HandlerSucceeds(k, at));
      Commits(s', id) + Done(s, id) == Commits(s, id) + Done(s', id)
  {
  }

  /** Every other step leaves the commits alone. */
  lemma OtherStepBalances(index: map<string, EventRoute>, s: State, step: Step, id: string)
    requires Enabled(s, step) && !step.HandlerSucceeds?
    ensures var s' := Next(index, s, step);
      s'.committed == s.committed && Done(s, id) == Done(s', id) + if Loses(s, step, id) then 1 else 0
  {
  }

  /** A step adds a commit exactly as it completes the record, and takes the completion away exactly as it loses it. */
  lemma StepBalances(index: map<string, EventRoute>, s: State, step: Step, id: string)
    requires Enabled(s, step)
    ensures var s' := Next(index, s, step);
      Commits(s', id) + Done(s, id) == Commits(s, id) + Done(s', id) + if Loses(s, step, id) then 1 else 0
  {
    if step.HandlerSucceeds? {
      CommitBalances(index, s, step.k, step.at, id);
    } else {
      OtherStepBalances(index, s, step, id);
    }
  }

  /** In every run a message has committed once for each loss of its COMPLETED record, and once more if it is COMPLETED
      now. */
  lemma {:induction false} CommitsCounted(index: map<string, EventRoute>, run: Run, id: string)
    requires IsRun(index, run)
    ensures Commits(After(index, run), id) == Losses(index, run, id) + Done(After(index, run), id)
  {
    if run.Then? {
      CommitsCounted(index, run.past, id);
      StepBalances(index, After(index, run.past), run.step, id);
    }
  }

  /** At most one commit, exactly: no loss, or one loss that no commit has followed. */
  lemma AtMostOneCommitExactly(index: map<string, EventRoute>, run: Run, id: string)
    requires IsRun(index, run)
    ensures Commits(After(index, run), id) <= 1 <==>
      || Losses(index, run, id) == 0
      || (Losses(index, run, id) == 1 && !HasStatus(After(index, run).records, id, Completed))
  {
    CommitsCounted(index, run, id);
  }

  /** A commit repeats an earlier one exactly when the COMPLETED record was lost in between. */
  lemma CommitRepeatsExactly(index: map<string, EventRoute>, run: Run, k: nat)
    requires IsRun(index, run) && Holding(After(index, run), k, Running)
    requires HasStatus(After(index, run).records, Id(After(index, run), k), Processing)
    ensures var s := After(index, run); Id(s, k) in s.committed <==> Losses(index, run, Id(s, k)) > 0
  {
    CommitsCounted(index, run, Id(After(index, run), k));
  }

  /** The record stays what it was at every moment from `earlier` to `later`. */
  predicate KeptThroughout(index: map<string, EventRoute>, earlier: Run, later: Run, id: string, record: Record)
    requires IsRun(index, later)
  {
    && id in After(index, later).records && After(index, later).records[id] == record
    && (later != earlier && later.Then? ==> KeptThroughout(index, earlier, later.past, id, record))
  }

  /** A COMPLETED record stays unchanged throughout exactly when no step on the way loses it. */
  lemma {:induction false} CompletedKeptExactly(
    index: map<string, EventRoute>, earlier: Run, later: Run, id: string)
    requires IsRun(index, later) && IsRun(index, earlier) && Extends(later, earlier)
    requires HasStatus(After(index, earlier).records, id, Completed)
    ensures Losses(index, earlier, id) <= Losses(index, later, id)
    ensures KeptThroughout(index, earlier, later, id, After(index, earlier).records[id]) <==>
      Losses(index, later, id) == Losses(index, earlier, id)
  {
    if later != earlier {
      var s := After(index, later.past);
      CompletedKeptExactly(index, earlier, later.past, id);
      if HasStatus(s.records, id, Completed) {
        CompletedLostExactly(index, s, later.step, id);
      }
    }
  }

  /** Acting in time is enough to lose nothing. */
  lemma {:induction false} TimelyRunsLoseNothing(index: map<string, EventRoute>, run: Run, id: string)
    requires IsRun(index, run) && TimelyRun(index, run)
    ensures Losses(index, run, id) == 0
  {
    if run.Then? {
      var s := After(index, run.past);
      TimelyRunsLoseNothing(index, run.past, id);
      if HasStatus(s.records, id, Completed) {
        RunKeepsInv(index, run.past);
        StepKeepsCompleted(index, s, run.step, id);
        CompletedLostExactly(index, s, run.step, id);
      }
    }
  }
}
