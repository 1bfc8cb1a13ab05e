/** What any sequence of deliveries leaves in the register. */
module SubscriptionOrder {
  import opened Subscriptions

  /** No two stores share a subscription id. */
  ghost predicate IdsAreUnique(register: Register) {
    forall s, t :: s in register && t in register && s != t && register[s].sallaSubscriptionId.Some? ==>
      register[s].sallaSubscriptionId != register[t].sallaSubscriptionId
  }

  lemma {:induction false} IdsStayUnique(register: Register, events: seq<Event>)
    requires IdsAreUnique(register)
    ensures IdsAreUnique(After(register, events))
  {
    if events != [] {
      IdsStayUnique(register, events[..|events| - 1]);
    }
  }

  /** The accepted events among `events`, in order. */
  function Accepted(register: Register, events: seq<Event>): seq<Event> {
    if events == [] then []
    else
      var n := |events| - 1;
      var before := Accepted(register, events[..n]);
      if Accepts(After(register, events[..n]), events[n]) then before + [events[n]] else before
  }

  /** Writing events one after the other, without looking at times. */
  function WrittenAll(register: Register, events: seq<Event>): Register {
    if events == [] then register
    else Written(WrittenAll(register, events[..|events| - 1]), events[|events| - 1])
  }

  /** The register is the plain fold of the accepted events. */
  lemma {:induction false} StateIsFoldOfAccepted(register: Register, events: seq<Event>)
    ensures After(register, events) == WrittenAll(register, Accepted(register, events))
  {
    if events != [] {
      var n := |events| - 1;
      StateIsFoldOfAccepted(register, events[..n]);
      var before := Accepted(register, events[..n]);
      assert (before + [events[n]])[..|before|] == before;
    }
  }

  /** Accepted events of one store have strictly increasing times, later than what was stored at first, and the stored
      time is that of the last one. */
  ghost predicate Ordered(register: Register, accepted: seq<Event>, after: Register, storeId: string) {
    && (forall i, j :: 0 <= i < j < |accepted| && accepted[i].storeId == storeId == accepted[j].storeId ==>
      accepted[i].eventAt < accepted[j].eventAt)
    && (forall i :: 0 <= i < |accepted| && accepted[i].storeId == storeId ==>
      && NewerThan(register, storeId, accepted[i].eventAt)
      && storeId in after && accepted[i].eventAt <= after[storeId].lastEventAt)
    && (storeId in register ==> storeId in after && register[storeId].lastEventAt <= after[storeId].lastEventAt)
    && (storeId in after ==>
      || (storeId in register && after[storeId] == register[storeId])
      || exists i :: LastOf(accepted, i, storeId) && accepted[i].eventAt == after[storeId].lastEventAt)
  }

  ghost predicate LastOf(accepted: seq<Event>, i: int, storeId: string) {
    && 0 <= i < |accepted| && accepted[i].storeId == storeId
    && forall j :: i < j < |accepted| ==> accepted[j].storeId != storeId
  }

  lemma {:induction false} AcceptedTimesIncrease(register: Register, events: seq<Event>, storeId: string)
    ensures Ordered(register, Accepted(register, events), After(register, events), storeId)
  {
    if events != [] {
      var n := |events| - 1;
      var e := events[n];
      var before, middle := Accepted(register, events[..n]), After(register, events[..n]);
      AcceptedTimesIncrease(register, events[..n], storeId);
      if Accepts(middle, e) {
        OneMoreIsOrdered(register, before, middle, e, storeId);
      }
    }
  }

  lemma OneMoreIsOrdered(register: Register, before: seq<Event>, middle: Register, e: Event, storeId: string)
    requires Ordered(register, before, middle, storeId) && Accepts(middle, e)
    ensures Ordered(register, before + [e], Written(middle, e), storeId)
  {
    var accepted, after := before + [e], Written(middle, e);
    if e.storeId == storeId {
      assert LastOf(accepted, |before|, storeId);
    } else if storeId in after && !(storeId in register && after[storeId] == register[storeId]) {
      var i :| LastOf(before, i, storeId) && before[i].eventAt == middle[storeId].lastEventAt;
      assert LastOf(accepted, i, storeId);
    }
  }

  /** Delivering an accepted event again, any time later, changes nothing. */
  lemma RedeliveryChangesNothing(register: Register, events: seq<Event>, e: Event)
    requires e in Accepted(register, events)
    ensures After(register, events + [e]) == After(register, events)
  {
    AcceptedTimesIncrease(register, events, e.storeId);
    AfterOneMore(register, events, e);
    var accepted := Accepted(register, events);
    var i :| 0 <= i < |accepted| && accepted[i] == e;
    assert !NewerThan(After(register, events), e.storeId, accepted[i].eventAt);
  }

  // ---- Order of delivery ----

  /** A start or renewal of the store that names its subscription, free to be used by the store. */
  predicate IsFull(register: Register, storeId: string, e: Event) {
    && e.Upsert? && e.storeId == storeId
    && HasId(e.sallaSubscriptionId) && !TakenElsewhere(register, storeId, e.sallaSubscriptionId)
  }

  ghost predicate AllFull(register: Register, storeId: string, events: seq<Event>) {
    forall e :: e in events ==> IsFull(register, storeId, e)
  }

  function Recorded(e: Event): Subscription
    requires e.Upsert?
  {
    Subscription(e.planId, e.sallaSubscriptionId, e.status, e.startDate, e.endDate, e.isTrial, e.eventAt)
  }

  /** The last event in time; one delivered twice counts as one. */
  ghost predicate IsLatest(events: seq<Event>, latest: Event) {
    && latest in events
    && forall e :: e in events ==> e == latest || e.eventAt < latest.eventAt
  }

  ghost predicate SameElsewhere(a: Register, b: Register, storeId: string) {
    && (forall s :: s in a && s != storeId ==> s in b && a[s] == b[s])
    && (forall s :: s in b && s != storeId ==> s in a)
  }

  lemma {:induction false} OthersUntouched(register: Register, storeId: string, events: seq<Event>)
    requires forall e :: e in events ==> e.storeId == storeId
    ensures SameElsewhere(register, After(register, events), storeId)
  {
    if events != [] {
      OthersUntouched(register, storeId, events[..|events| - 1]);
      assert events[|events| - 1] in events;
    }
  }

  lemma {:induction false} StaysOlder(register: Register, storeId: string, events: seq<Event>, eventAt: int)
    requires NewerThan(register, storeId, eventAt)
    requires forall e :: e in events ==> e.eventAt < eventAt
    ensures NewerThan(After(register, events), storeId, eventAt)
  {
    if events != [] {
      StaysOlder(register, storeId, events[..|events| - 1], eventAt);
      assert events[|events| - 1] in events;
    }
  }

  /** Among full events, in whatever order and however often they are delivered, the latest one decides. */
  lemma {:induction false} LatestWins(register: Register, storeId: string, events: seq<Event>, latest: Event)
    requires AllFull(register, storeId, events) && IsLatest(events, latest)
    ensures After(register, events)
         == if NewerThan(register, storeId, latest.eventAt) then register[storeId := Recorded(latest)] else register
  {
    var n := |events| - 1;
    var front, last := events[..n], events[n];
    assert events == front + [last];
    assert last in events && forall e :: e in front ==> e in events;
    if latest in front {
      LatestWins(register, storeId, front, latest);
    } else if NewerThan(register, storeId, latest.eventAt) {
      OthersUntouched(register, storeId, front);
      StaysOlder(register, storeId, front, latest.eventAt);
      LatestIsTaken(register, After(register, front), storeId, latest);
    } else {
      OldEventsIgnored(register, storeId, front, latest.eventAt);
    }
  }

  lemma LatestIsTaken(register: Register, middle: Register, storeId: string, latest: Event)
    requires IsFull(register, storeId, latest) && NewerThan(middle, storeId, latest.eventAt)
    requires SameElsewhere(register, middle, storeId)
    ensures Applied(middle, latest) == register[storeId := Recorded(latest)]
  {
    assert Accepts(middle, latest);
  }

  lemma {:induction false} OldEventsIgnored(register: Register, storeId: string, events: seq<Event>, eventAt: int)
    requires !NewerThan(register, storeId, eventAt)
    requires forall e :: e in events ==> e.storeId == storeId && e.eventAt <= eventAt
    ensures After(register, events) == register
  {
    if events != [] {
      OldEventsIgnored(register, storeId, events[..|events| - 1], eventAt);
      assert events[|events| - 1] in events;
    }
  }

  /** The same events, in any order and any number of times. */
  ghost predicate SameEvents(a: seq<Event>, b: seq<Event>) {
    forall e :: e in a <==> e in b
  }

  /** Full events with one latest end in the same register in every order, duplicates included. */
  lemma OrderDoesNotMatter(register: Register, storeId: string, a: seq<Event>, b: seq<Event>, latest: Event)
    requires AllFull(register, storeId, a) && SameEvents(a, b) && IsLatest(a, latest)
    ensures After(register, a) == After(register, b)
  {
    LatestWins(register, storeId, a, latest);
    LatestWins(register, storeId, b, latest);
  }

  lemma {:induction false} AfterConcat(register: Register, a: seq<Event>, b: seq<Event>)
    ensures After(register, a + b) == After(After(register, a), b)
  {
    if b == [] {
      assert a + b == a;
    } else {
      var n := |b| - 1;
      AfterConcat(register, a, b[..n]);
      AfterOneMore(register, a + b[..n], b[n]);
      assert a + b == (a + b[..n]) + [b[n]];
    }
  }

  /** Delivered first, an event that none is later than decides. */
  lemma FirstOfLatestDecides(register: Register, storeId: string, first: Event, rest: seq<Event>)
    requires IsFull(register, storeId, first) && AllFull(register, storeId, rest)
    requires NewerThan(register, storeId, first.eventAt)
    requires forall e :: e in rest ==> e.eventAt <= first.eventAt
    ensures After(register, [first] + rest) == register[storeId := Recorded(first)]
  {
    assert IsLatest([first], first) && AllFull(register, storeId, [first]);
    LatestWins(register, storeId, [first], first);
    AfterConcat(register, [first], rest);
    OldEventsIgnored(register[storeId := Recorded(first)], storeId, rest, first.eventAt);
  }

  lemma {:induction false} LatestTimeExists(events: seq<Event>) returns (latest: Event)
    requires events != []
    ensures latest in events && forall e :: e in events ==> e.eventAt <= latest.eventAt
  {
    var n := |events| - 1;
    assert events == events[..n] + [events[n]];
    latest := events[n];
    if n > 0 {
      var before := LatestTimeExists(events[..n]);
      if before.eventAt > latest.eventAt {
        latest := before;
      }
    }
  }

  /** Two different events share the latest time, and are newer than what is stored. */
  ghost predicate TiedForLatest(register: Register, storeId: string, events: seq<Event>, e: Event, f: Event) {
    && e in events && f in events && e != f && e.eventAt == f.eventAt && NewerThan(register, storeId, e.eventAt)
    && forall g :: g in events ==> g.eventAt <= e.eventAt
  }

  ghost predicate OrderMatters(register: Register, events: seq<Event>) {
    exists a, b :: SameEvents(events, a) && SameEvents(events, b) && After(register, a) != After(register, b)
  }

  lemma TieMatters(register: Register, storeId: string, events: seq<Event>, e: Event, f: Event)
    requires AllFull(register, storeId, events) && TiedForLatest(register, storeId, events, e, f)
    ensures OrderMatters(register, events)
  {
    FirstOfLatestDecides(register, storeId, e, events);
    FirstOfLatestDecides(register, storeId, f, events);
    assert Recorded(e) != Recorded(f);
    assert register[storeId := Recorded(e)][storeId] != register[storeId := Recorded(f)][storeId];
    assert SameEvents(events, [e] + events) && SameEvents(events, [f] + events);
  }

  /** Among full events of a store the order of delivery matters exactly when two different ones tie for the latest time
      and are newer than what is stored. */
  lemma OrderMattersExactly(register: Register, storeId: string, events: seq<Event>)
    requires AllFull(register, storeId, events)
    ensures OrderMatters(register, events) <==> exists e, f :: TiedForLatest(register, storeId, events, e, f)
  {
    if e, f :| TiedForLatest(register, storeId, events, e, f) {
      TieMatters(register, storeId, events, e, f);
    } else {
      forall a | SameEvents(events, a)
        ensures After(register, a) == After(register, events)
      {
        UntiedOrderDoesNotMatter(register, storeId, events, a);
      }
    }
  }

  lemma UntiedOrderDoesNotMatter(register: Register, storeId: string, a: seq<Event>, b: seq<Event>)
    requires AllFull(register, storeId, a) && SameEvents(a, b)
    requires forall e, f :: !TiedForLatest(register, storeId, a, e, f)
    ensures After(register, a) == After(register, b)
  {
    assert b != [] ==> b[0] in a;
    if a != [] {
      var latest := LatestTimeExists(a);
      if NewerThan(register, storeId, latest.eventAt) {
        assert forall e :: e in a && e.eventAt == latest.eventAt && e != latest ==>
          TiedForLatest(register, storeId, a, e, latest);
        OrderDoesNotMatter(register, storeId, a, b, latest);
      } else {
        OldEventsIgnored(register, storeId, a, latest.eventAt);
        OldEventsIgnored(register, storeId, b, latest.eventAt);
      }
    }
  }

  // ---- Trials and paid subscriptions ----

  predicate IsTrialEnd(e: Event, storeId: string) {
    e.SetStatus? && e.onlyTrial && e.storeId == storeId
  }

  predicate IsTrialStart(e: Event, storeId: string) {
    e.Upsert? && e.isTrial && e.storeId == storeId
  }

  function WithoutTrialEnds(events: seq<Event>, storeId: string): seq<Event> {
    if events == [] then []
    else
      var n := |events| - 1;
      var before := WithoutTrialEnds(events[..n], storeId);
      if IsTrialEnd(events[n], storeId) then before else before + [events[n]]
  }

  /** Once a store pays, and no trial starts, the ends of earlier trials may arrive at any time without a trace: the run
      is as if they had not been delivered. */
  lemma {:induction false} TrialEndsLeaveNoTrace(register: Register, events: seq<Event>, storeId: string)
    requires storeId in register && !register[storeId].isTrial
    requires forall e :: e in events ==> !IsTrialStart(e, storeId)
    ensures After(register, events) == After(register, WithoutTrialEnds(events, storeId))
    ensures storeId in After(register, events) && !After(register, events)[storeId].isTrial
  {
    if events != [] {
      var n := |events| - 1;
      TrialEndsLeaveNoTrace(register, events[..n], storeId);
      assert events[n] in events;
      AfterOneMore(register, WithoutTrialEnds(events[..n], storeId), events[n]);
    }
  }

  // ---- A partial event ----

  /** A renewal with an unknown plan writes only part of the row.  Delivered before the start that precedes it, it hides
      that start; the outcome is the same exactly when the stored row already has the start's plan, id and
      trial mark. */
  lemma OvertakingIsHarmlessExactly(register: Register, start: Event, extension: Event)
    requires start.Upsert? && extension.ExtendPeriod? && start.storeId == extension.storeId
    requires start.storeId in register
    requires register[start.storeId].lastEventAt < start.eventAt < extension.eventAt
    requires HasId(start.sallaSubscriptionId) ==>
      !TakenElsewhere(register, start.storeId, start.sallaSubscriptionId)
    ensures After(register, [start, extension]) == After(register, [extension, start]) <==>
      var stored := register[start.storeId];
      && stored.planId == start.planId && stored.isTrial == start.isTrial
      && stored.sallaSubscriptionId == IdAfter(register, start)
  {
    var store, stored := start.storeId, register[start.storeId];
    var inOrder := Subscription(start.planId, IdAfter(register, start), Active, extension.startDate, extension.endDate,
                                start.isTrial, extension.eventAt);
    var overtaken := Subscription(stored.planId, stored.sallaSubscriptionId, Active, extension.startDate,
                                  extension.endDate, stored.isTrial, extension.eventAt);
    AfterTwo(register, start, extension);
    AfterTwo(register, extension, start);
    assert After(register, [start, extension]) == register[store := inOrder];
    assert After(register, [extension, start]) == register[store := overtaken];
    assert register[store := inOrder][store] == inOrder && register[store := overtaken][store] == overtaken;
  }

  lemma AfterTwo(register: Register, first: Event, second: Event)
    ensures After(register, [first, second]) == Applied(Applied(register, first), second)
  {
    AfterOneMore(register, [first], second);
    AfterOneMore(register, [], first);
    assert [first] + [second] == [first, second] && [] + [first] == [first];
  }

  /** Of two full events with the same time the first delivered stays, so swapping them is harmless exactly when they
      are the same event. */
  lemma SameTimeFirstStays(register: Register, storeId: string, first: Event, second: Event)
    requires IsFull(register, storeId, first) && IsFull(register, storeId, second)
    requires first.eventAt == second.eventAt && NewerThan(register, storeId, first.eventAt)
    ensures After(register, [first, second]) == register[storeId := Recorded(first)]
    ensures After(register, [first, second]) == After(register, [second, first]) <==> first == second
  {
    FirstOfLatestDecides(register, storeId, first, [second]);
    FirstOfLatestDecides(register, storeId, second, [first]);
    assert [first] + [second] == [first, second] && [second] + [first] == [second, first];
    assert register[storeId := Recorded(first)][storeId] == Recorded(first);
    assert register[storeId := Recorded(second)][storeId] == Recorded(second);
  }
}
