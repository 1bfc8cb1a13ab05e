/** What each webhook leaves of a store's subscription, and whether the store may then use the chat. */
module SubscriptionAccess {
  import opened Options
  import opened Subscriptions
  import opened SubscriptionWebhook
  import opened Whitespace
  import UsageMeter

  /** The store's row grants access at `now`. */
  predicate MayUse(register: Register, storeId: string, now: int) {
    storeId in register && UsageMeter.HasAccess(register[storeId], now)
  }

  /** The end of a trial or of a paid subscription, accepted: the status and the event time change and nothing else.  An
      expired store loses access at once; a canceled one keeps it up to its end date. */
  lemma EndLeaves(
    register: Register, name: EventName, data: Data, storeId: string, eventAt: int, plans: map<PlanSlug, string>,
    lower: string -> string, now: int)
    requires name.TrialExpired? || name.SubscriptionExpired? || name.TrialCanceled? || name.SubscriptionCanceled?
    requires storeId in register && register[storeId].lastEventAt < eventAt
    requires name.TrialExpired? || name.TrialCanceled? ==> register[storeId].isTrial
    ensures var e := EventOf(name, data, storeId, eventAt, plans, lower);
      e.Some? &&
      var before, after := register[storeId], Applied(register, e.value);
      && after.Keys == register.Keys
      && (forall s :: s in register && s != storeId ==> after[s] == register[s])
      && after[storeId].status ==
         (if name.TrialExpired? || name.SubscriptionExpired? then Status.Expired else Status.Canceled)
      && after[storeId].lastEventAt == eventAt && after[storeId].planId == before.planId
      && after[storeId].sallaSubscriptionId == before.sallaSubscriptionId && after[storeId].isTrial == before.isTrial
      && after[storeId].startDate == before.startDate && after[storeId].endDate == before.endDate
      && (MayUse(after, storeId, now) <==>
            (name.TrialCanceled? || name.SubscriptionCanceled?) && before.endDate > now)
  {
  }

  /** A start or renewal of a known plan, accepted: the row is the event's.  A trial start is TRIALING on the fixed
      plan, a paid one ACTIVE on its own; either grants access up to the event's end date. */
  lemma StartLeaves(
    register: Register, name: EventName, data: Data, storeId: string, eventAt: int, plans: map<PlanSlug, string>,
    lower: string -> string, slug: PlanSlug, now: int)
    requires name.TrialStarted? || name.SubscriptionStarted? || name.SubscriptionRenewed?
    requires if name.TrialStarted? then slug == Pro else Some(slug) == ResolvePlanSlug(data.planName, lower)
    requires slug in plans && (storeId in register ==> register[storeId].lastEventAt < eventAt)
    requires data.subscriptionId.Some? && data.subscriptionId.value != ""
    requires forall s :: s in register && s != storeId ==> register[s].sallaSubscriptionId != data.subscriptionId
    ensures var e := EventOf(name, data, storeId, eventAt, plans, lower);
      e.Some? &&
      var after := Applied(register, e.value);
      && after == register[storeId := Subscription(
           plans[slug], data.subscriptionId, if name.TrialStarted? then Status.Trialing else Status.Active,
           if data.renewDate.Some? then data.renewDate.value else data.startDate, data.endDate, name.TrialStarted?,
           eventAt)]
      && (MayUse(after, storeId, now) <==> data.endDate > now)
  {
  }

  /** A renewal of an unknown plan, accepted: the store is ACTIVE over the event's dates, on the plan it had. */
  lemma UnknownRenewalLeaves(
    register: Register, data: Data, storeId: string, eventAt: int, plans: map<PlanSlug, string>,
    lower: string -> string, now: int)
    requires ResolvePlanSlug(data.planName, lower).None?
    requires storeId in register && register[storeId].lastEventAt < eventAt
    ensures var e := EventOf(SubscriptionRenewed, data, storeId, eventAt, plans, lower);
      e.Some? &&
      var after := Applied(register, e.value);
      && after == register[storeId := register[storeId].(
           status := Status.Active, startDate := if data.renewDate.Some? then data.renewDate.value else data.startDate,
           endDate := data.endDate, lastEventAt := eventAt)]
      && (MayUse(after, storeId, now) <==> data.endDate > now)
  {
  }

  /** A plan name is known exactly when it mentions one of the three plans; mentioning more than one, it is the first of
      basic, pro and max. */
  lemma PlanNames(planName: string, lower: string -> string)
    ensures var name, slug := lower(Trim(planName)), ResolvePlanSlug(Some(planName), lower);
      && (slug == Some(Basic) <==> VariantChoice.Includes(name, "basic"))
      && (slug == Some(Pro) <==> VariantChoice.Includes(name, "pro") && !VariantChoice.Includes(name, "basic"))
      && (slug == Some(Max) <==>
            && VariantChoice.Includes(name, "max")
            && !VariantChoice.Includes(name, "basic") && !VariantChoice.Includes(name, "pro"))
  {
  }
}
