/** Turning a store's subscription webhook into a register update.

    `lower` stands for lower-casing; the event time has been read, and dates are valid. */
module SubscriptionWebhook {
  import opened Options
  import opened Whitespace
  import opened Subscriptions
  import opened SubscriptionOrder
  import VariantChoice

  datatype EventName =
    | TrialStarted | TrialExpired | TrialCanceled
    | SubscriptionStarted | SubscriptionRenewed | SubscriptionExpired | SubscriptionCanceled

  datatype PlanSlug = Basic | Pro | Max

  const TRIAL_PLAN_SLUG := Pro

  datatype Data = Data(
    planName: Option<string>, subscriptionId: Option<string>, renewDate: Option<int>, startDate: int, endDate: int)

  function EventStatus(name: EventName): Status {
    match name
    case TrialStarted => Trialing
    case SubscriptionStarted | SubscriptionRenewed => Active
    case TrialExpired | SubscriptionExpired => Expired
    case TrialCanceled | SubscriptionCanceled => Canceled
  }

  predicate IsTrialEvent(name: EventName) {
    name.TrialStarted? || name.TrialExpired? || name.TrialCanceled?
  }

  function ResolvePlanSlug(planName: Option<string>, lower: string -> string): Option<PlanSlug> {
    var name := lower(Trim(planName.GetOr("")));
    if name == "" then None
    else if VariantChoice.Includes(name, "basic") then Some(Basic)
    else if VariantChoice.Includes(name, "pro") then Some(Pro)
    else if VariantChoice.Includes(name, "max") then Some(Max)
    else None
  }

  /** The plan an event is for: trials have a fixed one. */
  function PlanOfEvent(name: EventName, data: Data, lower: string -> string): Option<PlanSlug> {
    if name.TrialStarted? then Some(TRIAL_PLAN_SLUG) else ResolvePlanSlug(data.planName, lower)
  }

  /** The register event a webhook stands for, if any. */
  function EventOf(
    name: EventName, data: Data, storeId: string, eventAt: int, plans: map<PlanSlug, string>, lower: string -> string)
    : Option<Event>
  {
    var start := data.renewDate.GetOr(data.startDate);
    if EventStatus(name) in {Expired, Canceled} then
      Some(Event.SetStatus(storeId, EventStatus(name), IsTrialEvent(name), eventAt))
    else
      match PlanOfEvent(name, data, lower)
      case None =>
        if name.SubscriptionRenewed? then Some(Event.ExtendPeriod(storeId, start, data.endDate, eventAt)) else None
      case Some(slug) =>
        if slug !in plans then None
        else Some(Event.Upsert(storeId, plans[slug], data.subscriptionId, EventStatus(name), start, data.endDate,
                               name.TrialStarted?, eventAt))
  }

  class SallaWebhookService {
    const repository: SubscriptionsRepository

    constructor (repository: SubscriptionsRepository)
      ensures this.repository == repository
    {
      this.repository := repository;
    }

    /** `storeId` is the store linked to the merchant.  Answers whether a full sync was asked for, which a start does
        even when the register ignored it. */
    method HandleSubscriptionEvent(
      name: EventName, data: Option<Data>, storeId: Option<string>, eventAt: int, plans: map<PlanSlug, string>,
      lower: string -> string)
      returns (fullSync: bool)
      modifies repository
      ensures data.None? || storeId.None? ==> repository.register == old(repository.register) && !fullSync
      ensures data.Some? && storeId.Some? ==>
        var e := EventOf(name, data.value, storeId.value, eventAt, plans, lower);
        && (e.None? ==> repository.register == old(repository.register))
        && (e.Some? ==> repository.register == Applied(old(repository.register), e.value))
        && (fullSync <==> e.Some? && e.value.Upsert? && !name.SubscriptionRenewed?)
    {
      fullSync := false;
      if data.None? || storeId.None? {
        return;
      }
      var status := EventStatus(name);
      if status == Expired || status == Canceled {
        var _ := repository.UpdateStatusByStoreId(storeId.value, status, eventAt, IsTrialEvent(name));
        return;
      }
      var isTrial := name == TrialStarted;
      var startDate := data.value.renewDate.GetOr(data.value.startDate);
      var planSlug := if isTrial then Some(TRIAL_PLAN_SLUG) else ResolvePlanSlug(data.value.planName, lower);
      if planSlug.None? {
        if name == SubscriptionRenewed {
          var _ := repository.ExtendPeriod(storeId.value, startDate, data.value.endDate, eventAt);
        }
        return;
      }
      if planSlug.value !in plans {
        return;
      }
      var _ := repository.Upsert(Event.Upsert(storeId.value, plans[planSlug.value], data.value.subscriptionId, status,
                                              startDate, data.value.endDate, isTrial, eventAt));
      fullSync := name == SubscriptionStarted || name == TrialStarted;
    }
  }

  /** Only the end of a trial is dispatched as an update for trials alone, and only its start marks a trial. */
  lemma DispatchedKinds(
    name: EventName, data: Data, storeId: string, eventAt: int, plans: map<PlanSlug, string>, lower: string -> string)
    ensures var e := EventOf(name, data, storeId, eventAt, plans, lower);
      && (e.Some? && IsTrialEnd(e.value, storeId) <==> name.TrialExpired? || name.TrialCanceled?)
      && (e.Some? && IsTrialStart(e.value, storeId) <==> name.TrialStarted? && TRIAL_PLAN_SLUG in plans)
      && (e.Some? ==> e.value.storeId == storeId && e.value.eventAt == eventAt)
  {
  }
}
