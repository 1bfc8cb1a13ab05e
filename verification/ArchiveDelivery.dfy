/** The delivery protocol and the archive protocol run together.

    A persist message's handler opens archive transactions, and the transaction that inserts the pair is the one that
    completes the message's record: those two commits are one step.  Every other step of either protocol interleaves
    freely, for persist messages and for all others. */
module ArchiveDelivery {
  import opened Options
  import opened IdempotencyRecords
  import opened Topology
  import opened ChatArchive
  import Archive = ChatArchiveProtocol
  import Delivery = DeliveryProtocol
  import Safety = DeliverySafety
  import Losses = DeliveryLosses

  datatype State = State(
    delivery: Delivery.State,
    archive: Archive.State,
    owners: seq<nat>)   // for each archive transaction, the delivery whose handler opened it

  datatype Step =
    | Deliver(delivery: Delivery.Step)
    | Open(k: nat, payload: Payload, expiresAt: Option<int>)
    | Work(archive: Archive.Step)
    | CommitTogether(k: nat, at: int, t: nat)

  /** The setting: the routes, and the event of persist messages. */
  datatype Setting = Setting(index: map<string, EventRoute>, persist: string)

  /** Delivery `k` is running its handler for a persist message. */
  predicate Archiving(c: Setting, s: State, k: nat) {
    Delivery.Holding(s.delivery, k, Delivery.Running) && s.delivery.copies[k].message.event == c.persist
  }

  /** The handler of a persist message ends well, and so does its transaction. */
  predicate CommitsTurn(c: Setting, s: State, step: Delivery.Step) {
    && step.HandlerSucceeds? && Archiving(c, s, step.k)
    && HasStatus(s.delivery.records, Delivery.Id(s.delivery, step.k), Processing)
  }

  predicate Enabled(c: Setting, s: State, step: Step) {
    match step
    case Deliver(d) => Delivery.Enabled(s.delivery, d) && !CommitsTurn(c, s, d)
    case Open(k, payload, _) => Archiving(c, s, k) && payload.messageId == Delivery.Id(s.delivery, k)
    case Work(a) => Archive.Enabled(s.archive, a) && (a.Reserve? || a.Insert? || a.Abort?)
    case CommitTogether(k, at, t) =>
      && CommitsTurn(c, s, Delivery.HandlerSucceeds(k, at))
      && Archive.Enabled(s.archive, Archive.Commit(t)) && t < |s.owners| && s.owners[t] == k
  }

  function Next(c: Setting, s: State, step: Step): State
    requires Enabled(c, s, step)
  {
    match step
    case Deliver(d) => s.(delivery := Delivery.Next(c.index, s.delivery, d))
    case Open(k, payload, expiresAt) =>
      s.(archive := Archive.Next(s.archive, Archive.Begin(payload, expiresAt)), owners := s.owners + [k])
    case Work(a) => s.(archive := Archive.Next(s.archive, a))
    case CommitTogether(k, at, t) =>
      s.(delivery := Delivery.Next(c.index, s.delivery, Delivery.HandlerSucceeds(k, at)),
         archive := Archive.Next(s.archive, Archive.Commit(t)))
  }

  datatype Run = Start | Then(past: Run, step: Step)

  predicate IsRun(c: Setting, run: Run)
    decreases run, 0
  {
    run.Then? ==> IsRun(c, run.past) && Enabled(c, After(c, run.past), run.step)
  }

  function After(c: Setting, run: Run): State
    requires IsRun(c, run)
    decreases run, 1
  {
    match run
    case Start => State(Delivery.EMPTY, Archive.State(map[], [], [], []), [])
    case Then(past, step) => Next(c, After(c, past), step)
  }

  // ---- Each protocol alone ----

  function DeliveryOf(run: Run): Delivery.Run {
    match run
    case Start => Delivery.Start
    case Then(past, Deliver(d)) => Delivery.Then(DeliveryOf(past), d)
    case Then(past, CommitTogether(k, at, _)) => Delivery.Then(DeliveryOf(past), Delivery.HandlerSucceeds(k, at))
    case Then(past, _) => DeliveryOf(past)
  }

  function ArchiveOf(run: Run): Archive.Run {
    match run
    case Start => Archive.Start
    case Then(past, Deliver(_)) => ArchiveOf(past)
    case Then(past, Open(_, payload, expiresAt)) => Archive.Then(ArchiveOf(past), Archive.Begin(payload, expiresAt))
    case Then(past, Work(a)) => Archive.Then(ArchiveOf(past), a)
    case Then(past, CommitTogether(_, _, t)) => Archive.Then(ArchiveOf(past), Archive.Commit(t))
  }

  /** A joint run is a run of the delivery protocol, seen from there. */
  lemma {:induction false} ProjectsToDelivery(c: Setting, run: Run)
    requires IsRun(c, run)
    ensures Delivery.IsRun(c.index, DeliveryOf(run))
    ensures Delivery.After(c.index, DeliveryOf(run)) == After(c, run).delivery
  {
    if run.Then? {
      ProjectsToDelivery(c, run.past);
    }
  }

  /** And one of the archive protocol, seen from there. */
  lemma {:induction false} ProjectsToArchive(c: Setting, run: Run)
    requires IsRun(c, run)
    ensures Archive.IsRun(ArchiveOf(run)) && Archive.After(ArchiveOf(run)) == After(c, run).archive
  {
    if run.Then? {
      ProjectsToArchive(c, run.past);
    }
  }

  // ---- Turns and commits ----

  /** How many archived turns come from this message. */
  function TurnsFrom(log: seq<Archive.Transaction>, id: string): nat {
    if log == [] then 0
    else TurnsFrom(log[..|log| - 1], id) + if log[|log| - 1].payload.messageId == id then 1 else 0
  }

  lemma TurnsFromOneMore(log: seq<Archive.Transaction>, last: Archive.Transaction, id: string)
    ensures TurnsFrom(log + [last], id) == TurnsFrom(log, id) + if last.payload.messageId == id then 1 else 0
  {
    assert (log + [last])[..|log|] == log;
  }

  /** Each transaction archives the message of the delivery that opened it. */
  ghost predicate OwnersMatch(s: State) {
    && |s.owners| == |s.archive.transactions|
    && forall t :: 0 <= t < |s.owners| ==>
      && s.owners[t] < |s.delivery.copies|
      && s.archive.transactions[t].payload.messageId == Delivery.Id(s.delivery, s.owners[t])
  }

  /** Copies keep their message, and the list only grows. */
  ghost predicate Grows(before: Delivery.State, after: Delivery.State) {
    && |before.copies| <= |after.copies|
    && forall k :: 0 <= k < |before.copies| ==> after.copies[k].message == before.copies[k].message
  }

  lemma DeliveryGrows(index: map<string, EventRoute>, s: Delivery.State, step: Delivery.Step)
    requires Delivery.Enabled(s, step)
    ensures Grows(s, Delivery.Next(index, s, step))
  {
  }

  lemma ArchiveKeepsPayloads(s: Archive.State, step: Archive.Step)
    requires Archive.Enabled(s, step) && !step.Begin?
    ensures var s' := Archive.Next(s, step);
      && |s'.transactions| == |s.transactions|
      && forall t :: 0 <= t < |s.transactions| ==> s'.transactions[t].payload == s.transactions[t].payload
  {
  }

  lemma StepKeepsOwners(c: Setting, s: State, step: Step)
    requires OwnersMatch(s) && Enabled(c, s, step)
    ensures OwnersMatch(Next(c, s, step)) && Grows(s.delivery, Next(c, s, step).delivery)
  {
    match step {
      case Deliver(d) => DeliveryGrows(c.index, s.delivery, d);
      case Open(_, _, _) =>
      case Work(a) => ArchiveKeepsPayloads(s.archive, a);
      case CommitTogether(k, at, t) =>
        DeliveryGrows(c.index, s.delivery, Delivery.HandlerSucceeds(k, at));
        ArchiveKeepsPayloads(s.archive, Archive.Commit(t));
    }
  }

  /** Every copy of this message is a persist message. */
  ghost predicate OnlyPersists(c: Setting, s: State, id: string) {
    forall k :: 0 <= k < |s.delivery.copies| && s.delivery.copies[k].message.id == id ==>
      s.delivery.copies[k].message.event == c.persist
  }

  lemma DeliveryCommits(index: map<string, EventRoute>, s: Delivery.State, step: Delivery.Step, id: string)
    requires Delivery.Enabled(s, step)
    ensures Losses.Commits(Delivery.Next(index, s, step), id) == Losses.Commits(s, id) +
      if step.HandlerSucceeds? && Delivery.Id(s, step.k) == id && HasStatus(s.records, id, Processing) then 1 else 0
  {
  }

  /** A step adds a turn of a message only together with a commit of it, and no commit of a persist message without. */
  lemma StepAddsTurns(c: Setting, s: State, step: Step, id: string)
    requires OwnersMatch(s) && Enabled(c, s, step)
    ensures var s' := Next(c, s, step);
      var turns := TurnsFrom(s'.archive.log, id) - TurnsFrom(s.archive.log, id);
      var commits := Losses.Commits(s'.delivery, id) - Losses.Commits(s.delivery, id);
      0 <= turns <= commits && (OnlyPersists(c, s, id) ==> turns == commits)
  {
    match step {
      case Deliver(d) => DeliveryCommits(c.index, s.delivery, d, id);
      case CommitTogether(k, at, t) =>
        DeliveryCommits(c.index, s.delivery, Delivery.HandlerSucceeds(k, at), id);
        TurnsFromOneMore(s.archive.log, s.archive.transactions[t].(phase := Archive.Committed), id);
      case _ =>
    }
  }

  lemma {:induction false} TurnsAreCommits(c: Setting, run: Run, id: string)
    requires IsRun(c, run)
    ensures OwnersMatch(After(c, run))
    ensures TurnsFrom(After(c, run).archive.log, id) <= Losses.Commits(After(c, run).delivery, id)
    ensures OnlyPersists(c, After(c, run), id) ==>
      TurnsFrom(After(c, run).archive.log, id) == Losses.Commits(After(c, run).delivery, id)
  {
    if run.Then? {
      var s := After(c, run.past);
      TurnsAreCommits(c, run.past, id);
      StepKeepsOwners(c, s, run.step);
      StepAddsTurns(c, s, run.step, id);
    }
  }

  // ---- The results ----

  /** Without any timing assumption: a persist message has contributed one turn for each loss of its COMPLETED record,
      and one more if it is COMPLETED now. */
  lemma TurnsCounted(c: Setting, run: Run, id: string)
    requires IsRun(c, run) && OnlyPersists(c, After(c, run), id)
    ensures Delivery.IsRun(c.index, DeliveryOf(run))
    ensures TurnsFrom(After(c, run).archive.log, id)
         == Losses.Losses(c.index, DeliveryOf(run), id) + Losses.Done(After(c, run).delivery, id)
  {
    ProjectsToDelivery(c, run);
    TurnsAreCommits(c, run, id);
    Losses.CommitsCounted(c.index, DeliveryOf(run), id);
  }

  ghost predicate Timely(c: Setting, run: Run)
    requires IsRun(c, run)
  {
    Delivery.IsRun(c.index, DeliveryOf(run)) && Safety.TimelyRun(c.index, DeliveryOf(run))
  }

  /** In timely runs a message contributes at most one turn, however often it is delivered; a persist message exactly
      one once it is COMPLETED. */
  lemma EachMessageArchivedOnce(c: Setting, run: Run, id: string)
    requires IsRun(c, run) && Timely(c, run)
    ensures TurnsFrom(After(c, run).archive.log, id) <= 1
    ensures OnlyPersists(c, After(c, run), id) ==>
      (TurnsFrom(After(c, run).archive.log, id) == 1 <==> HasStatus(After(c, run).delivery.records, id, Completed))
  {
    ProjectsToDelivery(c, run);
    TurnsAreCommits(c, run, id);
    Losses.CommitsCounted(c.index, DeliveryOf(run), id);
    Losses.TimelyRunsLoseNothing(c.index, DeliveryOf(run), id);
  }

  lemma {:induction false} TurnOfIsCounted(log: seq<Archive.Transaction>, conversation: string, k: nat)
    requires k < |Archive.TurnsOf(log, conversation)|
    ensures TurnsFrom(log, Archive.TurnsOf(log, conversation)[k].payload.messageId) >= 1
  {
    var n := |log| - 1;
    if k < |Archive.TurnsOf(log[..n], conversation)| {
      TurnOfIsCounted(log[..n], conversation, k);
    }
  }

  ghost predicate FromDifferentMessages(turns: seq<Archive.Transaction>) {
    forall k, l :: 0 <= k < l < |turns| ==> turns[k].payload.messageId != turns[l].payload.messageId
  }

  lemma {:induction false} CountedOnceIsDistinct(log: seq<Archive.Transaction>, conversation: string)
    requires forall id :: TurnsFrom(log, id) <= 1
    ensures FromDifferentMessages(Archive.TurnsOf(log, conversation))
  {
    if log != [] {
      var n := |log| - 1;
      var before, last := Archive.TurnsOf(log[..n], conversation), log[n];
      forall id: string
        ensures TurnsFrom(log[..n], id) <= 1
      {
        assert TurnsFrom(log, id) <= 1;
      }
      CountedOnceIsDistinct(log[..n], conversation);
      assert Archive.TurnsOf(log, conversation)
          == if last.payload.conversationId == conversation then before + [last] else before;
      if last.payload.conversationId == conversation {
        forall k | 0 <= k < |before|
          ensures before[k].payload.messageId != last.payload.messageId
        {
          TurnOfIsCounted(log[..n], conversation, k);
          assert TurnsFrom(log, before[k].payload.messageId) <= 1;
        }
      }
    }
  }

  /** The stored messages of a conversation, in a timely joint run: numbered without a gap, in pairs, and no two pairs
      from one message. */
  lemma PairsComeFromDifferentMessages(c: Setting, run: Run, conversation: string)
    requires IsRun(c, run) && Timely(c, run)
    ensures var s := After(c, run).archive;
      var turns := Archive.TurnsOf(s.log, conversation);
      && Archive.NumberedInPairs(MessagesOf(s.messages, conversation), turns)
      && FromDifferentMessages(turns)
  {
    ProjectsToArchive(c, run);
    Archive.SequencesAreGapless(ArchiveOf(run), conversation);
    LogIsFromDifferentMessages(c, run, conversation);
  }

  lemma LogIsFromDifferentMessages(c: Setting, run: Run, conversation: string)
    requires IsRun(c, run) && Timely(c, run)
    ensures FromDifferentMessages(Archive.TurnsOf(After(c, run).archive.log, conversation))
  {
    forall id: string
      ensures TurnsFrom(After(c, run).archive.log, id) <= 1
    {
      EachMessageArchivedOnce(c, run, id);
    }
    CountedOnceIsDistinct(After(c, run).archive.log, conversation);
  }
}
