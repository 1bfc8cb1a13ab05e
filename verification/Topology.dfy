/** The generated RabbitMQ topology and the retry policy that reads its event index. */
module Topology {
  import opened Options
  import opened RetryNaming

  const GLOBAL_DLX := "app.dlx"

  datatype EventConfig = EventConfig(event: string, routingKey: string, queueName: string)

  datatype DomainConfig = DomainConfig(
    domain: string, exchange: string, retryDelaysMs: seq<nat>, events: seq<EventConfig>)

  datatype ExchangeType = Topic | Fanout | Direct

  datatype Exchange = Exchange(name: string, kind: ExchangeType)

  datatype QueueOptions = QueueOptions(
    messageTtl: Option<nat>, deadLetterExchange: Option<string>, deadLetterRoutingKey: Option<string>)

  datatype Queue = Queue(name: string, exchange: string, routingKey: string, options: QueueOptions)

  datatype EventRoute = EventRoute(
    domain: string, exchange: string, routingKey: string, queueName: string, retryDelaysMs: seq<nat>)

  datatype RabbitMqTopology = RabbitMqTopology(
    exchanges: seq<Exchange>, queues: seq<Queue>, eventIndex: map<string, EventRoute>)

  function DlqRoutingKey(routingKey: string): string {
    routingKey + ".dlq"
  }

  function RetryQueue(domain: DomainConfig, delayMs: nat): Queue {
    var name := RetryName(domain.domain, delayMs);
    Queue(name, name, "", QueueOptions(Some(delayMs), Some(domain.exchange), None))
  }

  function EventQueue(domain: DomainConfig, event: EventConfig): Queue {
    Queue(event.queueName, domain.exchange, event.routingKey,
          QueueOptions(None, Some(GLOBAL_DLX), Some(DlqRoutingKey(event.routingKey))))
  }

  function DeadLetterQueue(event: EventConfig): Queue {
    Queue(event.queueName + ".dlq", GLOBAL_DLX, DlqRoutingKey(event.routingKey), QueueOptions(None, None, None))
  }

  function RouteOf(domain: DomainConfig, event: EventConfig): EventRoute {
    EventRoute(domain.domain, domain.exchange, event.routingKey, event.queueName, domain.retryDelaysMs)
  }

  // What the generator produces, one configuration entry after the other.

  function RetryExchanges(domain: string, delays: seq<nat>): seq<Exchange> {
    seq(|delays|, i requires 0 <= i < |delays| => Exchange(RetryName(domain, delays[i]), Fanout))
  }

  function RetryQueues(domain: DomainConfig, delays: seq<nat>): seq<Queue> {
    seq(|delays|, i requires 0 <= i < |delays| => RetryQueue(domain, delays[i]))
  }

  function EventQueues(domain: DomainConfig, events: seq<EventConfig>): seq<Queue> {
    if events == [] then []
    else
      var event := events[|events| - 1];
      EventQueues(domain, events[..|events| - 1]) + [EventQueue(domain, event), DeadLetterQueue(event)]
  }

  function IndexEvents(eventIndex: map<string, EventRoute>, domain: DomainConfig, events: seq<EventConfig>)
    : map<string, EventRoute>
  {
    if events == [] then eventIndex
    else
      var event := events[|events| - 1];
      IndexEvents(eventIndex, domain, events[..|events| - 1])[event.event := RouteOf(domain, event)]
  }

  function TopologyOf(domains: seq<DomainConfig>): RabbitMqTopology {
    if domains == [] then RabbitMqTopology([Exchange(GLOBAL_DLX, Direct)], [], map[])
    else
      var before, domain := TopologyOf(domains[..|domains| - 1]), domains[|domains| - 1];
      RabbitMqTopology(
        before.exchanges + [Exchange(domain.exchange, Topic)] + RetryExchanges(domain.domain, domain.retryDelaysMs),
        before.queues + RetryQueues(domain, domain.retryDelaysMs) + EventQueues(domain, domain.events),
        IndexEvents(before.eventIndex, domain, domain.events))
  }

  /** The generator loops. */
  method BuildRabbitMqTopology(domains: seq<DomainConfig>) returns (t: RabbitMqTopology)
    ensures t == TopologyOf(domains)
  {
    var exchanges := [Exchange(GLOBAL_DLX, Direct)];
    var queues: seq<Queue> := [];
    var eventIndex: map<string, EventRoute> := map[];

    for i := 0 to |domains|
      invariant RabbitMqTopology(exchanges, queues, eventIndex) == TopologyOf(domains[..i])
    {
      var domain := domains[i];
      ghost var before := TopologyOf(domains[..i]);
      assert domains[..i + 1][..i] == domains[..i];
      exchanges := exchanges + [Exchange(domain.exchange, Topic)];

      for j := 0 to |domain.retryDelaysMs|
        invariant exchanges == before.exchanges + [Exchange(domain.exchange, Topic)]
                               + RetryExchanges(domain.domain, domain.retryDelaysMs[..j])
        invariant queues == before.queues + RetryQueues(domain, domain.retryDelaysMs[..j])
      {
        var delayMs := domain.retryDelaysMs[j];
        exchanges := exchanges + [Exchange(RetryName(domain.domain, delayMs), Fanout)];
        queues := queues + [RetryQueue(domain, delayMs)];
      }
      assert domain.retryDelaysMs[..|domain.retryDelaysMs|] == domain.retryDelaysMs;
      ghost var retryQueues := RetryQueues(domain, domain.retryDelaysMs);

      for j := 0 to |domain.events|
        invariant queues == before.queues + retryQueues + EventQueues(domain, domain.events[..j])
        invariant eventIndex == IndexEvents(before.eventIndex, domain, domain.events[..j])
      {
        var event := domain.events[j];
        assert domain.events[..j + 1][..j] == domain.events[..j];
        queues := queues + [EventQueue(domain, event)];
        queues := queues + [DeadLetterQueue(event)];
        eventIndex := eventIndex[event.event := RouteOf(domain, event)];
      }
      assert domain.events[..|domain.events|] == domain.events;
    }
    assert domains[..|domains|] == domains;
    t := RabbitMqTopology(exchanges, queues, eventIndex);
  }

  datatype RetryDecision = DeadLetter | Retry(nextAttempt: int, retryExchange: string, originalRoutingKey: string)

  /** The retry policy: attempt n may be followed by attempt n + 1 while a configured delay is left. */
  function Decide(eventIndex: map<string, EventRoute>, event: string, currentAttempt: int): RetryDecision {
    if event !in eventIndex then DeadLetter
    else
      var route := eventIndex[event];
      var nextAttempt := currentAttempt + 1;
      var delayIndex := nextAttempt - 2;
      if delayIndex < 0 || delayIndex >= |route.retryDelaysMs| then DeadLetter
      else Retry(nextAttempt, RetryName(route.domain, route.retryDelaysMs[delayIndex]), route.routingKey)
  }

  /** How many handler runs the policy allows a message of this event. */
  function MaxRuns(eventIndex: map<string, EventRoute>, event: string): nat {
    if event in eventIndex then 1 + |eventIndex[event].retryDelaysMs| else 1
  }
}
