/** A claim whose worker died is taken over: what a delivery does with a PROCESSING record, at any point of any run. */
module ClaimTakeover {
  import opened IdempotencyRecords
  import opened Topology
  import opened DeliveryProtocol

  /** A run with a delivery's four claim steps at its end. */
  function Claiming(run: Run, k: nat, insertAt: int, readAt: int, writeAt: int): Run {
    Then(Then(Then(Then(run, Deliver(k)), Insert(k, insertAt)), Find(k, readAt)), Reclaim(k, writeAt))
  }

  /** Up to the read: the record is there, so the delivery goes on to reclaim it. */
  lemma FindsProcessing(index: map<string, EventRoute>, run: Run, k: nat, insertAt: int, readAt: int)
    requires IsRun(index, run) && At(After(index, run), k, InQueue)
    requires insertAt <= After(index, run).clock && readAt <= After(index, run).clock
    requires HasStatus(After(index, run).records, Id(After(index, run), k), Processing)
    ensures var found := Then(Then(Then(run, Deliver(k)), Insert(k, insertAt)), Find(k, readAt));
      var before := After(index, run);
      && IsRun(index, found)
      && After(index, found)
         == before.(copies := before.copies[k := before.copies[k].(place := Reclaiming(readAt))])
  {
    var delivered := Then(run, Deliver(k));
    var inserted := Then(delivered, Insert(k, insertAt));
    var before := After(index, run);
    assert IsRun(index, delivered);
    assert After(index, delivered) == Moved(before, k, Inserting);
    assert IsRun(index, inserted);
    assert After(index, inserted) == Moved(Moved(before, k, Inserting), k, Finding);
  }

  /** A waiting copy whose message's record is PROCESSING, delivered with no other step between its steps, ends holding
      a fresh claim exactly when the old claim is more than five minutes old when it is read; otherwise it is acked and
      nothing changes. */
  lemma TakenOverExactly(
    index: map<string, EventRoute>, run: Run, k: nat, insertAt: int, readAt: int, writeAt: int)
    requires IsRun(index, run) && At(After(index, run), k, InQueue)
    requires insertAt <= readAt <= writeAt <= After(index, run).clock
    requires HasStatus(After(index, run).records, Id(After(index, run), k), Processing)
    ensures IsRun(index, Claiming(run, k, insertAt, readAt, writeAt))
    ensures var before, after := After(index, run), After(index, Claiming(run, k, insertAt, readAt, writeAt));
      var message, record := before.copies[k].message, before.records[Id(before, k)];
      && after.committed == before.committed
      && (record.startedAt < readAt - 300_000 ==>
            && after.copies == before.copies[k := Copy(message, Claimed(writeAt, Running))]
            && after.records == before.records[message.id := record.(startedAt := writeAt)])
      && (record.startedAt >= readAt - 300_000 ==>
            && after.copies == before.copies[k := Copy(message, Ignored)] && after.records == before.records)
  {
    FindsProcessing(index, run, k, insertAt, readAt);
  }

  /** So a message whose worker died is handled after all: a later redelivery takes the claim over, and its handler can
      commit. */
  lemma DeadClaimRecovers(
    index: map<string, EventRoute>, run: Run, k: nat, insertAt: int, readAt: int, writeAt: int, endAt: int)
    returns (longer: Run)
    requires IsRun(index, run) && At(After(index, run), k, InQueue)
    requires insertAt <= readAt <= writeAt <= After(index, run).clock
    requires HasStatus(After(index, run).records, Id(After(index, run), k), Processing)
    requires After(index, run).records[Id(After(index, run), k)].startedAt < readAt - 300_000
    ensures IsRun(index, longer) && Extends(longer, run)
    ensures After(index, longer).committed == After(index, run).committed + [Id(After(index, run), k)]
    ensures HasStatus(After(index, longer).records, Id(After(index, run), k), Completed)
  {
    TakenOverExactly(index, run, k, insertAt, readAt, writeAt);
    var taken := Claiming(run, k, insertAt, readAt, writeAt);
    longer := Then(taken, HandlerSucceeds(k, endAt));
    assert Extends(taken.past.past, run) && Extends(taken, run) && Extends(longer, run);
  }
}
