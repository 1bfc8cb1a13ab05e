/** The subscription register: events are applied only when newer than the last one applied to the store.

    Each repository update is one conditional database command.  Times are milliseconds. */
module Subscriptions {
  import opened Options

  datatype Status = Active | Trialing | Canceled | Expired

  datatype Subscription = Subscription(
    planId: string, sallaSubscriptionId: Option<string>, status: Status, startDate: int, endDate: int, isTrial: bool,
    lastEventAt: int)

  /** The collection, keyed by its unique store id. */
  type Register = map<string, Subscription>

  datatype Event =
    | Upsert(storeId: string, planId: string, sallaSubscriptionId: Option<string>, status: Status, startDate: int,
             endDate: int, isTrial: bool, eventAt: int)
    | SetStatus(storeId: string, status: Status, onlyTrial: bool, eventAt: int)
    | ExtendPeriod(storeId: string, startDate: int, endDate: int, eventAt: int)

  predicate NewerThan(register: Register, storeId: string, eventAt: int) {
    storeId in register ==> register[storeId].lastEventAt < eventAt
  }

  predicate HasId(sallaSubscriptionId: Option<string>) {
    sallaSubscriptionId.Some? && sallaSubscriptionId.value != ""
  }

  /** The sparse unique index refuses an id another store has. */
  predicate TakenElsewhere(register: Register, storeId: string, sallaSubscriptionId: Option<string>) {
    exists other :: other in register && other != storeId && register[other].sallaSubscriptionId == sallaSubscriptionId
  }

  /** The id a store has after writing `e`: an event without one keeps the old. */
  function IdAfter(register: Register, e: Event): Option<string>
    requires e.Upsert?
  {
    if HasId(e.sallaSubscriptionId) then e.sallaSubscriptionId
    else if e.storeId in register then register[e.storeId].sallaSubscriptionId
    else None
  }

  predicate Accepts(register: Register, e: Event) {
    && NewerThan(register, e.storeId, e.eventAt)
    && match e
       case Upsert(_, _, id, _, _, _, _, _) => HasId(id) ==> !TakenElsewhere(register, e.storeId, id)
       case SetStatus(_, _, onlyTrial, _) => e.storeId in register && (onlyTrial ==> register[e.storeId].isTrial)
       case ExtendPeriod(_, _, _, _) => e.storeId in register
  }

  /** What writing `e` leaves, whether or not it should be accepted. */
  function Written(register: Register, e: Event): Register {
    match e
    case Upsert(storeId, planId, _, status, startDate, endDate, isTrial, eventAt) =>
      register[storeId := Subscription(planId, IdAfter(register, e), status, startDate, endDate, isTrial, eventAt)]
    case SetStatus(storeId, status, _, eventAt) =>
      if storeId in register
      then register[storeId := register[storeId].(status := status, lastEventAt := eventAt)]
      else register
    case ExtendPeriod(storeId, startDate, endDate, eventAt) =>
      if storeId in register
      then register[storeId := register[storeId].(
                      status := Active, startDate := startDate, endDate := endDate, lastEventAt := eventAt)]
      else register
  }

  function Applied(register: Register, e: Event): Register {
    if Accepts(register, e) then Written(register, e) else register
  }

  function After(register: Register, events: seq<Event>): Register {
    if events == [] then register
    else Applied(After(register, events[..|events| - 1]), events[|events| - 1])
  }

  lemma AfterOneMore(register: Register, front: seq<Event>, last: Event)
    ensures After(register, front + [last]) == Applied(After(register, front), last)
  {
    assert (front + [last])[..|front|] == front;
  }

  // ---- The repository ----

  class SubscriptionsRepository {
    var register: Register

    constructor ()
      ensures register == map[]
    {
      register := map[];
    }

    /** The filtered update-or-insert.  When the stored row is not older, the insert it falls back to hits the unique
        store id; an id of another store hits the other unique index.  Both read as "not accepted". */
    method Upsert(payload: Event) returns (accepted: bool)
      requires payload.Upsert?
      modifies this
      ensures accepted == Accepts(old(register), payload)
      ensures register == Applied(old(register), payload)
      ensures accepted <==>
        && (payload.storeId in old(register) ==> old(register)[payload.storeId].lastEventAt < payload.eventAt)
        && (payload.sallaSubscriptionId.GetOr("") != "" ==>
              forall other :: other in old(register) && other != payload.storeId ==>
                old(register)[other].sallaSubscriptionId != payload.sallaSubscriptionId)
      ensures accepted ==>
        && register.Keys == old(register).Keys + {payload.storeId}
        && (forall s :: s in old(register) && s != payload.storeId ==> register[s] == old(register)[s])
        && var row := register[payload.storeId];
        && row.planId == payload.planId && row.status == payload.status && row.startDate == payload.startDate
        && row.endDate == payload.endDate && row.isTrial == payload.isTrial && row.lastEventAt == payload.eventAt
        && row.sallaSubscriptionId == (
             if payload.sallaSubscriptionId.GetOr("") != "" then payload.sallaSubscriptionId
             else if payload.storeId in old(register) then old(register)[payload.storeId].sallaSubscriptionId
             else None)
      ensures !accepted ==> register == old(register)
    {
      var id := payload.sallaSubscriptionId;
      if TakenElsewhere(register, payload.storeId, id) && HasId(id) {
        return false;
      }
      if payload.storeId in register {
        var stored := register[payload.storeId];
        if !(stored.lastEventAt < payload.eventAt) {
          return false;
        }
        register := register[payload.storeId := Subscription(
          payload.planId, if HasId(id) then id else stored.sallaSubscriptionId, payload.status, payload.startDate,
          payload.endDate, payload.isTrial, payload.eventAt)];
      } else {
        register := register[payload.storeId := Subscription(
          payload.planId, if HasId(id) then id else None, payload.status, payload.startDate, payload.endDate,
          payload.isTrial, payload.eventAt)];
      }
      accepted := true;
    }

    method UpdateStatusByStoreId(storeId: string, status: Status, eventAt: int, onlyTrial: bool)
      returns (accepted: bool)
      modifies this
      ensures accepted == Accepts(old(register), Event.SetStatus(storeId, status, onlyTrial, eventAt))
      ensures register == Applied(old(register), Event.SetStatus(storeId, status, onlyTrial, eventAt))
      ensures accepted <==>
        && storeId in old(register) && old(register)[storeId].lastEventAt < eventAt
        && (onlyTrial ==> old(register)[storeId].isTrial)
      ensures accepted ==>
        register == old(register)[storeId := old(register)[storeId].(status := status, lastEventAt := eventAt)]
      ensures !accepted ==> register == old(register)
    {
      if storeId !in register || (onlyTrial && !register[storeId].isTrial)
         || !(register[storeId].lastEventAt < eventAt) {
        return false;
      }
      register := register[storeId := register[storeId].(status := status, lastEventAt := eventAt)];
      accepted := true;
    }

    method ExtendPeriod(storeId: string, startDate: int, endDate: int, eventAt: int) returns (accepted: bool)
      modifies this
      ensures accepted == Accepts(old(register), Event.ExtendPeriod(storeId, startDate, endDate, eventAt))
      ensures register == Applied(old(register), Event.ExtendPeriod(storeId, startDate, endDate, eventAt))
      ensures accepted <==> storeId in old(register) && old(register)[storeId].lastEventAt < eventAt
      ensures accepted ==>
        register == old(register)[storeId := old(register)[storeId].(
                      status := Active, startDate := startDate, endDate := endDate, lastEventAt := eventAt)]
      ensures !accepted ==> register == old(register)
    {
      if storeId !in register || !(register[storeId].lastEventAt < eventAt) {
        return false;
      }
      var stored := register[storeId];
      register := register[storeId := stored.(
        status := Active, startDate := startDate, endDate := endDate, lastEventAt := eventAt)];
      accepted := true;
    }
  }
}
