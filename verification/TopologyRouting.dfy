/** Where the broker takes a message on a generated topology.

    Exchange kinds follow section 3.1.3 of AMQP 0-9-1: a fanout exchange reaches every bound queue, a direct
    exchange the queues bound with the message's routing key, a topic exchange the queues whose binding key
    matches it word by word.  Queue TTL and dead lettering are RabbitMQ's: an expired or rejected message goes to
    the queue's dead-letter exchange and keeps its routing key unless the queue names another one. */
module TopologyRouting {
  import opened Options
  import opened RetryNaming
  import opened Topology
  import opened TopicKeys
  import opened TopologyContents

  // ---- The broker ----

  predicate Accepts(kind: ExchangeType, queue: Queue, key: string) {
    match kind
    case Fanout => true
    case Direct => queue.routingKey == key
    case Topic => Matches(Words(queue.routingKey), Words(key))
  }

  ghost predicate Receives(t: RabbitMqTopology, queue: Queue, exchange: string, key: string) {
    && queue in t.queues
    && queue.exchange == exchange
    && exists kind :: Exchange(exchange, kind) in t.exchanges && Accepts(kind, queue, key)
  }

  /** The queues a message published to `exchange` with `key` lands in. */
  ghost function Receivers(t: RabbitMqTopology, exchange: string, key: string): set<Queue> {
    set queue | queue in t.queues && Receives(t, queue, exchange, key)
  }

  /** The queues a message with `key` lands in when `queue` expires or rejects it. */
  ghost function DeadLetterReceivers(t: RabbitMqTopology, queue: Queue, key: string): set<Queue> {
    match queue.options.deadLetterExchange
    case None => {}
    case Some(exchange) => Receivers(t, exchange, queue.options.deadLetterRoutingKey.GetOr(key))
  }

  // ---- Routing on a well-formed configuration ----

  /** Nothing but the delay's own queue is bound to a retry exchange. */
  lemma RetryExchangeReaches(domains: seq<DomainConfig>, i: int, j: int, key: string)
    requires WellFormed(domains) && IsDelay(domains, i, j)
    ensures var delayMs := domains[i].retryDelaysMs[j];
      Receivers(TopologyOf(domains), RetryName(domains[i].domain, delayMs), key) == {RetryQueue(domains[i], delayMs)}
  {
    var t, delayMs := TopologyOf(domains), domains[i].retryDelaysMs[j];
    var name, expected := RetryName(domains[i].domain, delayMs), RetryQueue(domains[i], delayMs);
    RetryNameEndsInDigit(domains[i].domain, delayMs);
    forall queue | queue in t.queues && queue.exchange == name
      ensures queue == expected
    {
      QueuesDeclared(domains, queue);
      if IsRetryQueue(domains, queue) {
        var i', j' :| IsDelay(domains, i', j') && queue == RetryQueue(domains[i'], domains[i'].retryDelaysMs[j']);
        RetryNameInjective(domains[i].domain, delayMs, domains[i'].domain, domains[i'].retryDelaysMs[j']);
      }
    }
    QueuesDeclared(domains, expected);
    ExchangesDeclared(domains, Exchange(name, Fanout));
    assert Exchange(name, Fanout) in t.exchanges && Accepts(Fanout, expected, key);
    assert Receives(t, expected, name, key);
  }

  /** A configured routing key published to its domain's exchange reaches its own queue only. */
  lemma DomainExchangeReaches(domains: seq<DomainConfig>, i: int, j: int)
    requires WellFormed(domains) && IsEvent(domains, i, j)
    ensures Receivers(TopologyOf(domains), domains[i].exchange, domains[i].events[j].routingKey)
         == {EventQueue(domains[i], domains[i].events[j])}
  {
    var t, name, key := TopologyOf(domains), domains[i].exchange, domains[i].events[j].routingKey;
    var expected := EventQueue(domains[i], domains[i].events[j]);
    forall queue | queue in t.queues && Receives(t, queue, name, key)
      ensures queue == expected
    {
      QueuesDeclared(domains, queue);
      var kind :| Exchange(name, kind) in t.exchanges && Accepts(kind, queue, key);
      ExchangesDeclared(domains, Exchange(name, kind));
      assert kind == Topic;
      var i', j' :| IsEvent(domains, i', j') && queue == EventQueue(domains[i'], domains[i'].events[j']);
      WildcardFreeKeyMatches(queue.routingKey, key);
    }
    QueuesDeclared(domains, expected);
    ExchangesDeclared(domains, Exchange(name, Topic));
    WildcardFreeKeyMatches(key, key);
    assert Exchange(name, Topic) in t.exchanges && Accepts(Topic, expected, key);
    assert Receives(t, expected, name, key);
  }

  /** The shared dead-letter exchange separates the events by their `.dlq` keys. */
  lemma DeadLetterExchangeReaches(domains: seq<DomainConfig>, i: int, j: int)
    requires WellFormed(domains) && IsEvent(domains, i, j)
    ensures Receivers(TopologyOf(domains), GLOBAL_DLX, DlqRoutingKey(domains[i].events[j].routingKey))
         == {DeadLetterQueue(domains[i].events[j])}
  {
    var t, event := TopologyOf(domains), domains[i].events[j];
    var key, expected := DlqRoutingKey(event.routingKey), DeadLetterQueue(event);
    RetryNamesAreNotDlx(domains);
    forall queue | queue in t.queues && Receives(t, queue, GLOBAL_DLX, key)
      ensures queue == expected
    {
      QueuesDeclared(domains, queue);
      var kind :| Exchange(GLOBAL_DLX, kind) in t.exchanges && Accepts(kind, queue, key);
      DeadLetterExchangeIsDirect(domains, kind);
      var i', j' :| IsEvent(domains, i', j') && queue == DeadLetterQueue(domains[i'].events[j']);
      var other := domains[i'].events[j'].routingKey;
      assert event.routingKey == key[..|key| - 4] == other;
    }
    QueuesDeclared(domains, expected);
    ExchangesDeclared(domains, Exchange(GLOBAL_DLX, Direct));
    assert Accepts(Direct, expected, key);
    assert Receives(t, expected, GLOBAL_DLX, key);
  }

  lemma DeadLetterExchangeIsDirect(domains: seq<DomainConfig>, kind: ExchangeType)
    requires WellFormed(domains) && Exchange(GLOBAL_DLX, kind) in TopologyOf(domains).exchanges
    ensures kind == Direct
  {
    ExchangesDeclared(domains, Exchange(GLOBAL_DLX, kind));
    RetryNamesAreNotDlx(domains);
  }

  lemma RetryNamesAreNotDlx(domains: seq<DomainConfig>)
    ensures forall i, j :: IsDelay(domains, i, j) ==>
      RetryName(domains[i].domain, domains[i].retryDelaysMs[j]) != GLOBAL_DLX
  {
    forall i, j | IsDelay(domains, i, j)
      ensures RetryName(domains[i].domain, domains[i].retryDelaysMs[j]) != GLOBAL_DLX
    {
      RetryNameEndsInDigit(domains[i].domain, domains[i].retryDelaysMs[j]);
    }
  }

  lemma RetryExchangeIsDeclared(domains: seq<DomainConfig>, i: int, d: int)
    requires IsDelay(domains, i, d)
    ensures Exchange(RetryName(domains[i].domain, domains[i].retryDelaysMs[d]), Fanout)
         in TopologyOf(domains).exchanges
  {
    ExchangesDeclared(domains, Exchange(RetryName(domains[i].domain, domains[i].retryDelaysMs[d]), Fanout));
  }

  lemma RetryQueueReturns(domains: seq<DomainConfig>, i: int, j: int, d: int)
    requires WellFormed(domains) && IsEvent(domains, i, j) && IsDelay(domains, i, d)
    ensures DeadLetterReceivers(TopologyOf(domains), RetryQueue(domains[i], domains[i].retryDelaysMs[d]),
                                domains[i].events[j].routingKey)
         == {EventQueue(domains[i], domains[i].events[j])}
  {
    DomainExchangeReaches(domains, i, j);
  }

  /** Which event and which delay a retry decision is about. */
  lemma RetryDecided(domains: seq<DomainConfig>, event: string, attempt: int) returns (i: int, j: int)
    requires Decide(TopologyOf(domains).eventIndex, event, attempt).Retry?
    ensures IsEvent(domains, i, j) && IsDelay(domains, i, attempt - 1)
    ensures var route, key := TopologyOf(domains).eventIndex[event], domains[i].events[j].routingKey;
      && route == RouteOf(domains[i], domains[i].events[j])
      && Decide(TopologyOf(domains).eventIndex, event, attempt)
         == Retry(attempt + 1, RetryName(domains[i].domain, domains[i].retryDelaysMs[attempt - 1]), key)
  {
    i, j := IndexEntries(domains, event);
  }

  /** A message published to `exchange` with `key` waits `delayMs` in one queue, and comes back to one queue, bound to
      its key and named `queueName`. */
  ghost predicate WaitsAndReturns(
    t: RabbitMqTopology, exchange: string, key: string, delayMs: nat, queueName: string, waiting: Queue, target: Queue)
  {
    && Exchange(exchange, Fanout) in t.exchanges
    && Receivers(t, exchange, key) == {waiting}
    && waiting.options.messageTtl == Some(delayMs)
    && DeadLetterReceivers(t, waiting, key) == {target}
    && target.name == queueName != waiting.name
    && target.routingKey == key
    && OnlyQueueNamed(t, waiting) && OnlyQueueNamed(t, target)
  }

  /** A retry's path, as the policy's decision and the event's route name it. */
  lemma RetryPathFor(
    domains: seq<DomainConfig>, i: int, j: int, d: int, decision: RetryDecision, route: EventRoute)
    requires WellFormed(domains) && IsEvent(domains, i, j) && IsDelay(domains, i, d)
    requires route == RouteOf(domains[i], domains[i].events[j])
    requires decision == Retry(d + 2, RetryName(domains[i].domain, domains[i].retryDelaysMs[d]),
                               domains[i].events[j].routingKey)
    ensures WaitsAndReturns(TopologyOf(domains), decision.retryExchange, decision.originalRoutingKey,
                            route.retryDelaysMs[d], route.queueName,
                            RetryQueue(domains[i], domains[i].retryDelaysMs[d]),
                            EventQueue(domains[i], domains[i].events[j]))
  {
    RetryExchangeReaches(domains, i, d, domains[i].events[j].routingKey);
    RetryQueueReturns(domains, i, j, d);
    RetryExchangeIsDeclared(domains, i, d);
    QueuesDeclared(domains, RetryQueue(domains[i], domains[i].retryDelaysMs[d]));
    QueuesDeclared(domains, EventQueue(domains[i], domains[i].events[j]));
    NamesIdentifyQueues(domains, RetryQueue(domains[i], domains[i].retryDelaysMs[d]));
    NamesIdentifyQueues(domains, EventQueue(domains[i], domains[i].events[j]));
  }

  /** A retry the policy decides on waits exactly the chosen delay and comes back to its event's queue alone. */
  lemma RetryReturnsToItsQueue(domains: seq<DomainConfig>, event: string, attempt: int)
    returns (waiting: Queue, target: Queue)
    requires WellFormed(domains)
    requires Decide(TopologyOf(domains).eventIndex, event, attempt).Retry?
    ensures var t := TopologyOf(domains);
      var decision, route := Decide(t.eventIndex, event, attempt), t.eventIndex[event];
      WaitsAndReturns(t, decision.retryExchange, decision.originalRoutingKey, route.retryDelaysMs[attempt - 1],
                      route.queueName, waiting, target)
  {
    var t := TopologyOf(domains);
    var i, j := RetryDecided(domains, event, attempt);
    waiting := RetryQueue(domains[i], domains[i].retryDelaysMs[attempt - 1]);
    target := EventQueue(domains[i], domains[i].events[j]);
    RetryPathFor(domains, i, j, attempt - 1, Decide(t.eventIndex, event, attempt), t.eventIndex[event]);
  }

  /** A message rejected from an event's queue reaches exactly that queue's `.dlq`. */
  lemma NackReachesItsDlq(domains: seq<DomainConfig>, i: int, j: int, key: string)
    requires WellFormed(domains) && IsEvent(domains, i, j)
    ensures var t, queue := TopologyOf(domains), EventQueue(domains[i], domains[i].events[j]);
      var dlq := DeadLetterQueue(domains[i].events[j]);
      && DeadLetterReceivers(t, queue, key) == {dlq}
      && OnlyQueueNamed(t, queue) && OnlyQueueNamed(t, dlq)
  {
    QueuesDeclared(domains, EventQueue(domains[i], domains[i].events[j]));
    QueuesDeclared(domains, DeadLetterQueue(domains[i].events[j]));
    NamesIdentifyQueues(domains, EventQueue(domains[i], domains[i].events[j]));
    NamesIdentifyQueues(domains, DeadLetterQueue(domains[i].events[j]));
    DeadLetterExchangeReaches(domains, i, j);
  }
}
