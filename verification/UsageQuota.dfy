/** Chat turns of one store running at once within one fixed subscription period: each is checked, generated,
    counted. */
module UsageQuota {
  import opened Options
  import opened Subscriptions
  import opened UsageMeter

  /** The turns between check and count, and the tokens of those counted so far. */
  datatype State = State(rows: seq<Usage>, inFlight: nat, counted: seq<nat>)

  /** The subscription, its period and plan limits, and the most turns that may be in flight. */
  datatype Setting = Setting(
    sub: Subscription, subscriptionId: string, limits: map<string, int>, mostInFlight: nat)

  datatype Action = Check(now: int) | Count(tokens: nat) | Abandon

  function PeriodOf(c: Setting): Period {
    Period(c.subscriptionId, c.sub.startDate, c.sub.endDate)
  }

  function Start(rows: seq<Usage>): State {
    State(rows, 0, [])
  }

  predicate CanStep(c: Setting, s: State, a: Action) {
    match a
    case Check(now) => Covers(PeriodOf(c), now) && s.inFlight < c.mostInFlight
    case Count(_) => s.inFlight > 0
    case Abandon => s.inFlight > 0
  }

  function Next(c: Setting, s: State, a: Action): State
    requires CanStep(c, s, a)
  {
    match a
    case Check(now) =>
      if Allowance(Some(c.sub), c.limits, CurrentCount(s.rows, now), now).Ok? then s.(inFlight := s.inFlight + 1) else s
    case Count(tokens) =>
      State(Recorded(s.rows, PeriodOf(c), tokens), s.inFlight - 1, s.counted + [tokens])
    case Abandon => s.(inFlight := s.inFlight - 1)
  }

  ghost predicate IsRun(c: Setting, start: State, actions: seq<Action>)
    decreases |actions|, 0
  {
    actions != [] ==>
      var n := |actions| - 1;
      IsRun(c, start, actions[..n]) && CanStep(c, After(c, start, actions[..n]), actions[n])
  }

  ghost function After(c: Setting, start: State, actions: seq<Action>): State
    requires IsRun(c, start, actions)
    decreases |actions|, 1
  {
    if actions == [] then start
    else
      var n := |actions| - 1;
      Next(c, After(c, start, actions[..n]), actions[n])
  }

  function Sum(tokens: seq<nat>): nat {
    if tokens == [] then 0 else Sum(tokens[..|tokens| - 1]) + tokens[|tokens| - 1]
  }

  /** No row reaches into the period. */
  ghost predicate Untouched(rows: seq<Usage>, period: Period) {
    forall i, now :: 0 <= i < |rows| && Covers(period, now) ==> rows[i].period != period && !Covers(rows[i].period, now)
  }

  /** The rows of before, and at most one for the period with what was counted. */
  ghost predicate Meters(before: seq<Usage>, s: State, period: Period) {
    s.rows == MeteredRows(before, s.counted, period)
  }

  function MeteredRows(before: seq<Usage>, counted: seq<nat>, period: Period): seq<Usage> {
    if counted == [] then before else before + [Usage(period, |counted|, Sum(counted))]
  }

  lemma CountingMeters(before: seq<Usage>, counted: seq<nat>, period: Period, tokens: nat)
    requires forall i :: 0 <= i < |before| ==> before[i].period != period
    ensures Recorded(MeteredRows(before, counted, period), period, tokens)
         == MeteredRows(before, counted + [tokens], period)
  {
    RecordedPlace(MeteredRows(before, counted, period), |before|, period, tokens);
    assert (counted + [tokens])[..|counted|] == counted;
  }

  lemma {:induction false} NothingCurrent(before: seq<Usage>, period: Period, now: int)
    requires Untouched(before, period) && Covers(period, now)
    ensures CurrentUsage(before, now) == None
  {
    if before != [] {
      NothingCurrent(before[..|before| - 1], period, now);
    }
  }

  lemma CurrentIsCounted(before: seq<Usage>, s: State, period: Period, now: int)
    requires Untouched(before, period) && Covers(period, now) && Meters(before, s, period)
    ensures CurrentCount(s.rows, now) == |s.counted|
    ensures s.counted != [] ==> CurrentUsage(s.rows, now) == Some(Usage(period, |s.counted|, Sum(s.counted)))
  {
    if s.counted == [] {
      NothingCurrent(before, period, now);
    }
  }

  /** In every run the counter is the number of counted turns, and the token total is theirs. */
  lemma {:induction false} CounterIsExact(c: Setting, before: seq<Usage>, actions: seq<Action>)
    requires IsRun(c, Start(before), actions)
    requires forall i :: 0 <= i < |before| ==> before[i].period != PeriodOf(c)
    ensures Meters(before, After(c, Start(before), actions), PeriodOf(c))
  {
    if actions != [] {
      var n := |actions| - 1;
      CounterIsExact(c, before, actions[..n]);
      if actions[n].Count? {
        var s := After(c, Start(before), actions[..n]);
        CountingMeters(before, s.counted, PeriodOf(c), actions[n].tokens);
      }
    }
  }

  /** With a limited plan, turns counted and in flight together exceed the limit by less than what may be in flight. */
  lemma {:induction false} QuotaOvershootIsBounded(c: Setting, before: seq<Usage>, actions: seq<Action>, limit: nat)
    requires c.sub.planId in c.limits && c.limits[c.sub.planId] == limit
    requires c.mostInFlight >= 1
    requires IsRun(c, Start(before), actions) && Untouched(before, PeriodOf(c))
    requires forall i :: 0 <= i < |before| ==> before[i].period != PeriodOf(c)
    ensures var s := After(c, Start(before), actions);
      && |s.counted| + s.inFlight <= limit - 1 + c.mostInFlight
      && forall now :: Covers(PeriodOf(c), now) ==> CurrentCount(s.rows, now) == |s.counted|
  {
    var s := After(c, Start(before), actions);
    CounterIsExact(c, before, actions);
    forall now | Covers(PeriodOf(c), now)
      ensures CurrentCount(s.rows, now) == |s.counted|
    {
      CurrentIsCounted(before, s, PeriodOf(c), now);
    }
    if actions != [] {
      QuotaOvershootIsBounded(c, before, actions[..|actions| - 1], limit);
    }
  }

  // ---- The bound is reached ----

  lemma OneMore(c: Setting, start: State, actions: seq<Action>, a: Action)
    requires IsRun(c, start, actions) && CanStep(c, After(c, start, actions), a)
    ensures IsRun(c, start, actions + [a])
    ensures After(c, start, actions + [a]) == Next(c, After(c, start, actions), a)
  {
    assert (actions + [a])[..|actions|] == actions;
  }

  /** From a state below the limit, `n` turns can pass the check, then be counted one after the other. */
  lemma {:induction false} ChecksPass(
    c: Setting, before: seq<Usage>, actions: seq<Action>, limit: nat, now: int, n: nat) returns (more: seq<Action>)
    requires c.sub.planId in c.limits && c.limits[c.sub.planId] == limit
    requires Untouched(before, PeriodOf(c)) && Covers(PeriodOf(c), now) && HasAccess(c.sub, now)
    requires IsRun(c, Start(before), actions)
    requires var s := After(c, Start(before), actions);
      |s.counted| < limit && s.inFlight + n <= c.mostInFlight
    ensures IsRun(c, Start(before), more)
    ensures var s := After(c, Start(before), actions);
      After(c, Start(before), more) == s.(inFlight := s.inFlight + n)
  {
    more := actions;
    if n > 0 {
      var front := ChecksPass(c, before, actions, limit, now, n - 1);
      var s := After(c, Start(before), front);
      UntouchedHasNoRow(before, PeriodOf(c), now);
      CounterIsExact(c, before, front);
      CurrentIsCounted(before, s, PeriodOf(c), now);
      OneMore(c, Start(before), front, Check(now));
      more := front + [Check(now)];
    }
  }

  lemma UntouchedHasNoRow(before: seq<Usage>, period: Period, now: int)
    requires Untouched(before, period) && Covers(period, now)
    ensures forall i :: 0 <= i < |before| ==> before[i].period != period
  {
  }

  lemma {:induction false} AllCounted(c: Setting, start: State, actions: seq<Action>, n: nat)
    returns (more: seq<Action>)
    requires IsRun(c, start, actions) && After(c, start, actions).inFlight >= n
    ensures IsRun(c, start, more)
    ensures var s, t := After(c, start, actions), After(c, start, more);
      |t.counted| == |s.counted| + n && t.inFlight == s.inFlight - n
  {
    more := actions;
    if n > 0 {
      var front := AllCounted(c, start, actions, n - 1);
      OneMore(c, start, front, Count(0));
      more := front + [Count(0)];
    }
  }

  lemma {:induction false} ReachBelowLimit(c: Setting, before: seq<Usage>, limit: nat, now: int, n: nat)
    returns (actions: seq<Action>)
    requires c.sub.planId in c.limits && c.limits[c.sub.planId] == limit && c.mostInFlight >= 1 && n < limit
    requires Untouched(before, PeriodOf(c)) && Covers(PeriodOf(c), now) && HasAccess(c.sub, now)
    ensures IsRun(c, Start(before), actions)
    ensures After(c, Start(before), actions).inFlight == 0 && |After(c, Start(before), actions).counted| == n
  {
    actions := [];
    if n > 0 {
      var front := ReachBelowLimit(c, before, limit, now, n - 1);
      var checked := ChecksPass(c, before, front, limit, now, 1);
      actions := AllCounted(c, Start(before), checked, 1);
    }
  }

  /** The bound cannot be lowered: for every positive limit some run ends with exactly that many turns counted. */
  lemma OvershootIsReached(c: Setting, before: seq<Usage>, limit: nat, now: int) returns (actions: seq<Action>)
    requires c.sub.planId in c.limits && c.limits[c.sub.planId] == limit && c.mostInFlight >= 1 && limit >= 1
    requires Untouched(before, PeriodOf(c)) && Covers(PeriodOf(c), now) && HasAccess(c.sub, now)
    ensures IsRun(c, Start(before), actions)
    ensures |After(c, Start(before), actions).counted| == limit - 1 + c.mostInFlight
  {
    var front := ReachBelowLimit(c, before, limit, now, limit - 1);
    var checked := ChecksPass(c, before, front, limit, now, c.mostInFlight);
    actions := AllCounted(c, Start(before), checked, c.mostInFlight);
  }
}
