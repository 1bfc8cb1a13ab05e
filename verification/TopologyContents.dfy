/** Well-formed configurations, and what the topology generated from one contains. */
module TopologyContents {
  import opened Options
  import opened RetryNaming
  import opened Topology
  import opened TopicKeys

  // ---- Well-formed configurations ----

  /** Entry `j` of domain `i`. */
  predicate IsEvent(domains: seq<DomainConfig>, i: int, j: int) {
    0 <= i < |domains| && 0 <= j < |domains[i].events|
  }

  predicate IsDelay(domains: seq<DomainConfig>, i: int, j: int) {
    0 <= i < |domains| && 0 <= j < |domains[i].retryDelaysMs|
  }

  ghost predicate DistinctDomains(domains: seq<DomainConfig>) {
    forall i, j :: 0 <= i < j < |domains| ==>
      domains[i].domain != domains[j].domain && domains[i].exchange != domains[j].exchange
  }

  ghost predicate DistinctEvents(domains: seq<DomainConfig>) {
    forall i, j, i', j' :: IsEvent(domains, i, j) && IsEvent(domains, i', j') && (i != i' || j != j') ==>
      && domains[i].events[j].event != domains[i'].events[j'].event
      && domains[i].events[j].routingKey != domains[i'].events[j'].routingKey
  }

  ghost predicate WildcardFreeKeys(domains: seq<DomainConfig>) {
    forall i, j :: IsEvent(domains, i, j) ==> WildcardFree(domains[i].events[j].routingKey)
  }

  ghost predicate SeparateExchanges(domains: seq<DomainConfig>) {
    && (forall i :: 0 <= i < |domains| ==> domains[i].exchange != GLOBAL_DLX)
    && (forall i, i', j :: 0 <= i < |domains| && IsDelay(domains, i', j) ==>
          domains[i].exchange != RetryName(domains[i'].domain, domains[i'].retryDelaysMs[j]))
  }

  /** Queue names differ from one another, from the dead-letter queues' and from the retry queues'. */
  ghost predicate DistinctQueues(domains: seq<DomainConfig>) {
    && (forall i, j, i', j' :: IsEvent(domains, i, j) && IsEvent(domains, i', j') ==>
          && (i != i' || j != j' ==> domains[i].events[j].queueName != domains[i'].events[j'].queueName)
          && domains[i].events[j].queueName != domains[i'].events[j'].queueName + ".dlq")
    && (forall i, j, i', d :: IsEvent(domains, i, j) && IsDelay(domains, i', d) ==>
          domains[i].events[j].queueName != RetryName(domains[i'].domain, domains[i'].retryDelaysMs[d]))
  }

  ghost predicate WellFormed(domains: seq<DomainConfig>) {
    && DistinctDomains(domains) && DistinctEvents(domains) && DistinctQueues(domains)
    && WildcardFreeKeys(domains) && SeparateExchanges(domains)
  }

  // ---- What the generated topology contains ----

  ghost predicate IsRetryExchange(domains: seq<DomainConfig>, exchange: Exchange) {
    exists i, j :: IsDelay(domains, i, j)
                   && exchange == Exchange(RetryName(domains[i].domain, domains[i].retryDelaysMs[j]), Fanout)
  }

  ghost predicate IsRetryQueue(domains: seq<DomainConfig>, queue: Queue) {
    exists i, j :: IsDelay(domains, i, j) && queue == RetryQueue(domains[i], domains[i].retryDelaysMs[j])
  }

  ghost predicate IsEventQueue(domains: seq<DomainConfig>, queue: Queue) {
    exists i, j :: IsEvent(domains, i, j) && queue == EventQueue(domains[i], domains[i].events[j])
  }

  ghost predicate IsDeadLetterQueue(domains: seq<DomainConfig>, queue: Queue) {
    exists i, j :: IsEvent(domains, i, j) && queue == DeadLetterQueue(domains[i].events[j])
  }

  /** The last domain adds its delays' exchanges to the retry exchanges. */
  lemma RetryExchangesSplit(domains: seq<DomainConfig>, exchange: Exchange)
    requires domains != []
    ensures var n := |domains| - 1;
      IsRetryExchange(domains, exchange) <==>
        IsRetryExchange(domains[..n], exchange)
        || exchange in RetryExchanges(domains[n].domain, domains[n].retryDelaysMs)
  {
    var n := |domains| - 1;
    var front, last := domains[..n], domains[n];
    var retries := RetryExchanges(last.domain, last.retryDelaysMs);
    if exchange in retries {
      var j :| 0 <= j < |retries| && retries[j] == exchange;
      assert IsDelay(domains, n, j);
    }
    if IsRetryExchange(front, exchange) {
      var i, j :| IsDelay(front, i, j)
                  && exchange == Exchange(RetryName(front[i].domain, front[i].retryDelaysMs[j]), Fanout);
      assert IsDelay(domains, i, j) && domains[i] == front[i];
    }
    if IsRetryExchange(domains, exchange) {
      var i, j :| IsDelay(domains, i, j)
                  && exchange == Exchange(RetryName(domains[i].domain, domains[i].retryDelaysMs[j]), Fanout);
      if i == n {
        assert retries[j] == exchange;
      } else {
        assert IsDelay(front, i, j) && front[i] == domains[i];
      }
    }
  }

  lemma {:induction false} ExchangesDeclared(domains: seq<DomainConfig>, exchange: Exchange)
    ensures exchange in TopologyOf(domains).exchanges <==>
      || exchange == Exchange(GLOBAL_DLX, Direct)
      || (exists i :: 0 <= i < |domains| && exchange == Exchange(domains[i].exchange, Topic))
      || IsRetryExchange(domains, exchange)
  {
    if domains != [] {
      ExchangesDeclared(domains[..|domains| - 1], exchange);
      RetryExchangesSplit(domains, exchange);
    }
  }

  lemma {:induction false} EventQueuesDeclared(domain: DomainConfig, events: seq<EventConfig>, queue: Queue)
    ensures queue in EventQueues(domain, events) <==>
      exists j :: 0 <= j < |events| && (queue == EventQueue(domain, events[j]) || queue == DeadLetterQueue(events[j]))
  {
    if events != [] {
      var n := |events| - 1;
      EventQueuesDeclared(domain, events[..n], queue);
      assert forall j :: 0 <= j < n ==> events[..n][j] == events[j];
    }
  }

  /** The last domain adds its delays' queues to the retry queues. */
  lemma RetryQueuesSplit(domains: seq<DomainConfig>, queue: Queue)
    requires domains != []
    ensures var n := |domains| - 1;
      IsRetryQueue(domains, queue) <==>
        IsRetryQueue(domains[..n], queue) || queue in RetryQueues(domains[n], domains[n].retryDelaysMs)
  {
    var n := |domains| - 1;
    var retries := RetryQueues(domains[n], domains[n].retryDelaysMs);
    if i, j :| IsDelay(domains, i, j) && queue == RetryQueue(domains[i], domains[i].retryDelaysMs[j]) {
      assert if i == n then retries[j] == queue else IsDelay(domains[..n], i, j);
    }
    if j :| 0 <= j < |retries| && retries[j] == queue {
      assert IsDelay(domains, n, j);
    }
    if i, j :| IsDelay(domains[..n], i, j) && queue == RetryQueue(domains[i], domains[i].retryDelaysMs[j]) {
      assert IsDelay(domains, i, j);
    }
  }

  /** The last domain adds its events' queues to the event queues and dead-letter queues. */
  lemma EventQueuesSplit(domains: seq<DomainConfig>, queue: Queue)
    requires domains != []
    ensures var n := |domains| - 1;
      IsEventQueue(domains, queue) || IsDeadLetterQueue(domains, queue) <==>
        || IsEventQueue(domains[..n], queue) || IsDeadLetterQueue(domains[..n], queue)
        || queue in EventQueues(domains[n], domains[n].events)
  {
    var n := |domains| - 1;
    var front, last := domains[..n], domains[n];
    EventQueuesDeclared(last, last.events, queue);
    forall i, j | IsEvent(domains, i, j)
      ensures i == n || (IsEvent(front, i, j) && front[i] == domains[i])
    {}
    forall i, j | IsEvent(front, i, j)
      ensures IsEvent(domains, i, j) && front[i] == domains[i]
    {}
    if j :| 0 <= j < |last.events|
            && (queue == EventQueue(last, last.events[j]) || queue == DeadLetterQueue(last.events[j])) {
      assert IsEvent(domains, n, j);
    }
  }

  lemma {:induction false} QueuesDeclared(domains: seq<DomainConfig>, queue: Queue)
    ensures queue in TopologyOf(domains).queues <==>
      IsRetryQueue(domains, queue) || IsEventQueue(domains, queue) || IsDeadLetterQueue(domains, queue)
  {
    if domains != [] {
      QueuesDeclared(domains[..|domains| - 1], queue);
      RetryQueuesSplit(domains, queue);
      EventQueuesSplit(domains, queue);
    }
  }

  lemma {:induction false} IndexedEvents(
    eventIndex: map<string, EventRoute>, domain: DomainConfig, events: seq<EventConfig>, event: string)
    returns (j: int)
    requires event in IndexEvents(eventIndex, domain, events)
    ensures -1 <= j < |events|
    ensures j == -1 ==>
      event in eventIndex && IndexEvents(eventIndex, domain, events)[event] == eventIndex[event]
    ensures j >= 0 ==>
      events[j].event == event && IndexEvents(eventIndex, domain, events)[event] == RouteOf(domain, events[j])
  {
    if events == [] {
      return -1;
    }
    var n := |events| - 1;
    if events[n].event == event {
      return n;
    }
    j := IndexedEvents(eventIndex, domain, events[..n], event);
  }

  /** Every index entry is the route of a configured event. */
  lemma {:induction false} IndexEntries(domains: seq<DomainConfig>, event: string) returns (i: int, j: int)
    requires event in TopologyOf(domains).eventIndex
    ensures IsEvent(domains, i, j) && domains[i].events[j].event == event
    ensures TopologyOf(domains).eventIndex[event] == RouteOf(domains[i], domains[i].events[j])
  {
    var n := |domains| - 1;
    i := n;
    j := IndexedEvents(TopologyOf(domains[..n]).eventIndex, domains[n], domains[n].events, event);
    if j == -1 {
      i, j := IndexEntries(domains[..n], event);
    }
  }

  lemma {:induction false} IndexedStays(
    eventIndex: map<string, EventRoute>, domain: DomainConfig, events: seq<EventConfig>, event: string)
    requires event in eventIndex
    ensures event in IndexEvents(eventIndex, domain, events)
  {
    if events != [] {
      IndexedStays(eventIndex, domain, events[..|events| - 1], event);
    }
  }

  lemma {:induction false} EventAdded(
    eventIndex: map<string, EventRoute>, domain: DomainConfig, events: seq<EventConfig>, j: nat)
    requires j < |events|
    ensures events[j].event in IndexEvents(eventIndex, domain, events)
  {
    var n := |events| - 1;
    if j < n {
      EventAdded(eventIndex, domain, events[..n], j);
    }
  }

  lemma {:induction false} EveryEventIndexed(domains: seq<DomainConfig>, i: int, j: int)
    requires IsEvent(domains, i, j)
    ensures domains[i].events[j].event in TopologyOf(domains).eventIndex
  {
    var n := |domains| - 1;
    var before := TopologyOf(domains[..n]).eventIndex;
    if i < n {
      EveryEventIndexed(domains[..n], i, j);
      IndexedStays(before, domains[n], domains[n].events, domains[i].events[j].event);
    } else {
      EventAdded(before, domains[n], domains[n].events, j);
    }
  }

  /** Every configured event is indexed with its own route. */
  lemma EventIsRouted(domains: seq<DomainConfig>, i: int, j: int)
    requires DistinctEvents(domains) && IsEvent(domains, i, j)
    ensures domains[i].events[j].event in TopologyOf(domains).eventIndex
    ensures TopologyOf(domains).eventIndex[domains[i].events[j].event] == RouteOf(domains[i], domains[i].events[j])
    ensures var route, event := TopologyOf(domains).eventIndex[domains[i].events[j].event], domains[i].events[j];
      && route.domain == domains[i].domain && route.exchange == domains[i].exchange
      && route.routingKey == event.routingKey && route.queueName == event.queueName
      && route.retryDelaysMs == domains[i].retryDelaysMs
  {
    EveryEventIndexed(domains, i, j);
    var i', j' := IndexEntries(domains, domains[i].events[j].event);
    assert i' == i && j' == j;
  }

  // ---- One broker queue for each declared queue ----

  lemma EventQueueNamesDiffer(domains: seq<DomainConfig>, a: Queue, b: Queue)
    requires DistinctQueues(domains) && IsEventQueue(domains, a) && a.name == b.name
    requires IsRetryQueue(domains, b) || IsEventQueue(domains, b) || IsDeadLetterQueue(domains, b)
    ensures a == b
  {
    var i, j :| IsEvent(domains, i, j) && a == EventQueue(domains[i], domains[i].events[j]);
    if IsEventQueue(domains, b) {
      var i', j' :| IsEvent(domains, i', j') && b == EventQueue(domains[i'], domains[i'].events[j']);
      assert i == i' && j == j';
    }
  }

  lemma DeadLetterQueueNamesDiffer(domains: seq<DomainConfig>, a: Queue, b: Queue)
    requires DistinctQueues(domains) && IsDeadLetterQueue(domains, a) && a.name == b.name
    requires IsRetryQueue(domains, b) || IsDeadLetterQueue(domains, b)
    ensures a == b
  {
    var i, j :| IsEvent(domains, i, j) && a == DeadLetterQueue(domains[i].events[j]);
    var name := domains[i].events[j].queueName;
    assert a.name[|a.name| - 1] == 'q' && a.name[..|a.name| - 4] == name;
    if IsDeadLetterQueue(domains, b) {
      var i', j' :| IsEvent(domains, i', j') && b == DeadLetterQueue(domains[i'].events[j']);
      assert name == domains[i'].events[j'].queueName;
      assert i == i' && j == j';
    } else {
      var i', d :| IsDelay(domains, i', d) && b == RetryQueue(domains[i'], domains[i'].retryDelaysMs[d]);
      RetryNameEndsInDigit(domains[i'].domain, domains[i'].retryDelaysMs[d]);
      assert false;
    }
  }

  lemma RetryQueueNamesDiffer(domains: seq<DomainConfig>, a: Queue, b: Queue)
    requires DistinctDomains(domains) && IsRetryQueue(domains, a) && IsRetryQueue(domains, b) && a.name == b.name
    ensures a == b
  {
    var i, d :| IsDelay(domains, i, d) && a == RetryQueue(domains[i], domains[i].retryDelaysMs[d]);
    var i', d' :| IsDelay(domains, i', d') && b == RetryQueue(domains[i'], domains[i'].retryDelaysMs[d']);
    RetryNameInjective(domains[i].domain, domains[i].retryDelaysMs[d],
                       domains[i'].domain, domains[i'].retryDelaysMs[d']);
    assert i == i';
  }

  /** The broker knows queues by name: the queue is declared, and no other declared queue has its name. */
  ghost predicate OnlyQueueNamed(t: RabbitMqTopology, queue: Queue) {
    queue in t.queues && forall other :: other in t.queues && other.name == queue.name ==> other == queue
  }

  lemma NamesIdentifyQueues(domains: seq<DomainConfig>, queue: Queue)
    requires DistinctDomains(domains) && DistinctQueues(domains) && queue in TopologyOf(domains).queues
    ensures OnlyQueueNamed(TopologyOf(domains), queue)
  {
    QueuesDeclared(domains, queue);
    forall other | other in TopologyOf(domains).queues && other.name == queue.name
      ensures other == queue
    {
      QueuesDeclared(domains, other);
      if IsEventQueue(domains, queue) {
        EventQueueNamesDiffer(domains, queue, other);
      } else if IsEventQueue(domains, other) {
        EventQueueNamesDiffer(domains, other, queue);
      } else if IsDeadLetterQueue(domains, queue) {
        DeadLetterQueueNamesDiffer(domains, queue, other);
      } else if IsDeadLetterQueue(domains, other) {
        DeadLetterQueueNamesDiffer(domains, other, queue);
      } else {
        RetryQueueNamesDiffer(domains, queue, other);
      }
    }
  }

  /** Only retry queues expire messages. */
  lemma OnlyRetryQueuesExpire(domains: seq<DomainConfig>, queue: Queue)
    requires queue in TopologyOf(domains).queues
    ensures queue.options.messageTtl.Some? <==> IsRetryQueue(domains, queue)
  {
    QueuesDeclared(domains, queue);
  }

  /** A message waits in its event's queue until it is delivered, and in its dead-letter queue for good: of all queues
      named so, none expires messages, and the dead-letter queue passes nothing on. */
  lemma MessagesAreKept(domains: seq<DomainConfig>, i: int, j: int, queue: Queue)
    requires DistinctDomains(domains) && DistinctQueues(domains)
    requires IsEvent(domains, i, j) && queue in TopologyOf(domains).queues
    ensures queue.name == domains[i].events[j].queueName ==>
      queue.options.messageTtl == None && queue.options.deadLetterExchange == Some("app.dlx")
    ensures queue.name == domains[i].events[j].queueName + ".dlq" ==> queue.options == QueueOptions(None, None, None)
  {
    QueuesDeclared(domains, EventQueue(domains[i], domains[i].events[j]));
    QueuesDeclared(domains, DeadLetterQueue(domains[i].events[j]));
    NamesIdentifyQueues(domains, EventQueue(domains[i], domains[i].events[j]));
    NamesIdentifyQueues(domains, DeadLetterQueue(domains[i].events[j]));
  }
}
