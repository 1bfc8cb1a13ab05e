/** The usage rows of one store, the allowance check before a chat turn, and the count after it. */
module UsageMeter {
  import opened Options
  import opened Subscriptions

  const UNLIMITED := -1

  /** A row's unique key. */
  datatype Period = Period(subscriptionId: string, start: int, end: int)

  /** Rows are kept in the order of their creation. */
  datatype Usage = Usage(period: Period, aiMessagesCount: nat, tokensUsed: nat)

  predicate Covers(period: Period, now: int) {
    period.start <= now < period.end
  }

  /** The row that counts at `now`: of those covering it the one created last.  The period asked for is not looked
      at. */
  function CurrentUsage(rows: seq<Usage>, now: int): Option<Usage> {
    if rows == [] then None
    else
      var n := |rows| - 1;
      if Covers(rows[n].period, now) then Some(rows[n]) else CurrentUsage(rows[..n], now)
  }

  function CurrentCount(rows: seq<Usage>, now: int): nat {
    match CurrentUsage(rows, now)
    case None => 0
    case Some(usage) => usage.aiMessagesCount
  }

  /** One more turn in the row of the period, which is created when missing. */
  function Recorded(rows: seq<Usage>, period: Period, tokens: nat): seq<Usage> {
    if rows == [] then [Usage(period, 1, tokens)]
    else if rows[0].period == period then
      [Usage(period, rows[0].aiMessagesCount + 1, rows[0].tokensUsed + tokens)] + rows[1..]
    else [rows[0]] + Recorded(rows[1..], period, tokens)
  }

  /** Where a turn is recorded: in the first row of the period, or in a new row at the end. */
  lemma {:induction false} RecordedPlace(rows: seq<Usage>, i: nat, period: Period, tokens: nat)
    requires i <= |rows| && forall j :: 0 <= j < i ==> rows[j].period != period
    ensures i == |rows| ==> Recorded(rows, period, tokens) == rows + [Usage(period, 1, tokens)]
    ensures i < |rows| && rows[i].period == period ==>
      Recorded(rows, period, tokens)
      == rows[i := Usage(period, rows[i].aiMessagesCount + 1, rows[i].tokensUsed + tokens)]
  {
    if i > 0 {
      RecordedPlace(rows[1..], i - 1, period, tokens);
    }
  }

  predicate HasAccess(sub: Subscription, now: int) {
    sub.status in {Active, Trialing, Canceled} && sub.endDate > now
  }

  datatype Refusal = NoSubscription | Inactive | PlanMissing | LimitExceeded

  /** What the check answers; `limits` gives the message limit of each known plan. */
  function Allowance(sub: Option<Subscription>, limits: map<string, int>, count: nat, now: int): Result<(), Refusal> {
    if sub.None? then Err(NoSubscription)
    else if !HasAccess(sub.value, now) then Err(Inactive)
    else if sub.value.planId !in limits then Err(PlanMissing)
    else if limits[sub.value.planId] != UNLIMITED && count >= limits[sub.value.planId] then Err(LimitExceeded)
    else Ok(())
  }

  /** The store is subscribed, in a status that grants access, and the subscription has not ended. */
  predicate Subscribed(sub: Option<Subscription>, now: int) {
    sub.Some? && sub.value.status != Expired && now < sub.value.endDate
  }

  /** The limit of the subscription's plan is used up: by the newest row that covers now, or from the start. */
  ghost predicate UsedUp(rows: seq<Usage>, limit: int, now: int) {
    && limit != UNLIMITED
    && (limit <= 0 || exists i :: IsNewest(rows, i, now) && rows[i].aiMessagesCount >= limit)
  }

  ghost predicate IsNewest(rows: seq<Usage>, i: int, now: int) {
    && 0 <= i < |rows| && Covers(rows[i].period, now)
    && forall j :: i < j < |rows| ==> !Covers(rows[j].period, now)
  }

  lemma {:induction false} CountedAgainst(rows: seq<Usage>, limit: int, now: int)
    ensures CurrentCount(rows, now) >= limit <==>
      limit <= 0 || exists i :: IsNewest(rows, i, now) && rows[i].aiMessagesCount >= limit
  {
    if rows != [] {
      var n := |rows| - 1;
      CountedAgainst(rows[..n], limit, now);
      if Covers(rows[n].period, now) {
        assert IsNewest(rows, n, now);
      } else {
        forall i
          ensures IsNewest(rows, i, now) <==> IsNewest(rows[..n], i, now)
        {
        }
      }
    }
  }

  /** What each answer means, in terms of the subscription, the plans and the rows. */
  ghost predicate AnswersFor(
    allowed: Result<(), Refusal>, sub: Option<Subscription>, limits: map<string, int>, rows: seq<Usage>, now: int)
  {
    && (allowed == Err(NoSubscription) <==> sub.None?)
    && (allowed == Err(Inactive) <==> sub.Some? && !Subscribed(sub, now))
    && (allowed == Err(PlanMissing) <==> Subscribed(sub, now) && sub.value.planId !in limits)
    && (allowed == Err(LimitExceeded) <==>
          Subscribed(sub, now) && sub.value.planId in limits && UsedUp(rows, limits[sub.value.planId], now))
    && (allowed.Ok? <==>
          Subscribed(sub, now) && sub.value.planId in limits && !UsedUp(rows, limits[sub.value.planId], now))
  }

  lemma AllowanceAnswers(sub: Option<Subscription>, limits: map<string, int>, rows: seq<Usage>, now: int)
    ensures AnswersFor(Allowance(sub, limits, CurrentCount(rows, now), now), sub, limits, rows, now)
  {
    if sub.Some? && sub.value.planId in limits {
      CountedAgainst(rows, limits[sub.value.planId], now);
    }
  }

  /** The collection's unique index. */
  ghost predicate PeriodsAreUnique(rows: seq<Usage>) {
    forall i, j :: 0 <= i < j < |rows| ==> rows[i].period != rows[j].period
  }

  lemma {:induction false} CurrentIsNewest(rows: seq<Usage>, i: nat, now: int)
    requires i < |rows| && IsNewest(rows, i, now)
    ensures CurrentUsage(rows, now) == Some(rows[i])
  {
    var n := |rows| - 1;
    if i < n {
      CurrentIsNewest(rows[..n], i, now);
    }
  }

  lemma {:induction false} NewestExists(rows: seq<Usage>, now: int) returns (i: nat)
    requires CurrentUsage(rows, now).Some?
    ensures i < |rows| && IsNewest(rows, i, now) && rows[i] == CurrentUsage(rows, now).value
  {
    var n := |rows| - 1;
    if Covers(rows[n].period, now) {
      i := n;
    } else {
      i := NewestExists(rows[..n], now);
    }
  }

  /** When the current row is the subscription's own, recording an allowed turn counts it, and the next check refuses
      for the limit exactly when that turn was the last one left. */
  lemma NextTurnRefusedExactly(
    sub: Subscription, subscriptionId: string, limits: map<string, int>, rows: seq<Usage>, tokens: nat, now: int)
    requires Allowance(Some(sub), limits, CurrentCount(rows, now), now).Ok? && PeriodsAreUnique(rows)
    requires CurrentUsage(rows, now).Some?
    requires CurrentUsage(rows, now).value.period == Period(subscriptionId, sub.startDate, sub.endDate)
    ensures var count, after := CurrentCount(rows, now),
                                Recorded(rows, Period(subscriptionId, sub.startDate, sub.endDate), tokens);
      && CurrentCount(after, now) == count + 1
      && (Allowance(Some(sub), limits, CurrentCount(after, now), now) == Err(LimitExceeded) <==>
            limits[sub.planId] != UNLIMITED && count == limits[sub.planId] - 1)
  {
    var period := Period(subscriptionId, sub.startDate, sub.endDate);
    var i := NewestExists(rows, now);
    RecordedPlace(rows, i, period, tokens);
    var after := Recorded(rows, period, tokens);
    assert IsNewest(after, i, now);
    CurrentIsNewest(after, i, now);
  }

  class UsageRepository {
    var rows: seq<Usage>

    constructor ()
      ensures rows == []
    {
      rows := [];
    }

    method FindCurrentUsage(now: int) returns (usage: Option<Usage>)
      ensures usage == CurrentUsage(rows, now)
    {
      var i := |rows|;
      assert rows[..i] == rows;
      while i > 0
        invariant 0 <= i <= |rows|
        invariant CurrentUsage(rows, now) == CurrentUsage(rows[..i], now)
      {
        i := i - 1;
        assert rows[..i + 1][..i] == rows[..i];
        if Covers(rows[i].period, now) {
          return Some(rows[i]);
        }
      }
      usage := None;
    }

    method RecordConversation(period: Period, tokens: nat)
      modifies this
      ensures rows == Recorded(old(rows), period, tokens)
    {
      for i := 0 to |rows|
        invariant rows == old(rows)
        invariant forall j :: 0 <= j < i ==> rows[j].period != period
      {
        RecordedPlace(rows, i, period, tokens);
        var row := rows[i];
        if row.period == period {
          rows := rows[i := Usage(period, row.aiMessagesCount + 1, row.tokensUsed + tokens)];
          return;
        }
      }
      RecordedPlace(rows, |rows|, period, tokens);
      rows := rows + [Usage(period, 1, tokens)];
    }
  }

  class SubscriptionsService {
    const usageRepository: UsageRepository

    constructor (usageRepository: UsageRepository)
      ensures this.usageRepository == usageRepository
    {
      this.usageRepository := usageRepository;
    }

    method ValidateChatAllowanceOrThrow(sub: Option<Subscription>, limits: map<string, int>, now: int)
      returns (allowed: Result<(), Refusal>)
      ensures AnswersFor(allowed, sub, limits, usageRepository.rows, now)
      ensures allowed == Allowance(sub, limits, CurrentCount(usageRepository.rows, now), now)
    {
      AllowanceAnswers(sub, limits, usageRepository.rows, now);
      if sub.None? {
        return Err(NoSubscription);
      }
      if !HasAccess(sub.value, now) {
        return Err(Inactive);
      }
      if sub.value.planId !in limits {
        return Err(PlanMissing);
      }
      var messagesLimit := limits[sub.value.planId];
      if messagesLimit == UNLIMITED {
        return Ok(());
      }
      var usage := usageRepository.FindCurrentUsage(now);
      var currentCount := if usage.Some? then usage.value.aiMessagesCount else 0;
      if currentCount >= messagesLimit {
        return Err(LimitExceeded);
      }
      allowed := Ok(());
    }

    method TrackNewConversation(sub: Option<Subscription>, subscriptionId: string, tokensUsed: nat)
      modifies usageRepository
      ensures usageRepository.rows
           == if sub.None? then old(usageRepository.rows)
              else Recorded(old(usageRepository.rows),
                            Period(subscriptionId, sub.value.startDate, sub.value.endDate), tokensUsed)
    {
      if sub.None? {
        return;
      }
      usageRepository.RecordConversation(Period(subscriptionId, sub.value.startDate, sub.value.endDate), tokensUsed);
    }
  }
}
