/** The configuration the repository ships, and that the routing results apply to it. */
module ShippedTopology {
  import opened RetryNaming
  import opened Topology
  import opened TopicKeys
  import opened TopologyContents

  const PRODUCT_SYNC_FULL := "salla.product.sync.full"
  const PRODUCT_SYNC_INCREMENTAL := "salla.product.sync.incremental"
  const PRODUCT_SYNC_DELETED := "salla.product.sync.deleted"
  const CHAT_CONVERSATION_SUMMARIZE := "chat.conversation.summarize"
  const CHAT_CONVERSATION_PERSIST := "chat.conversation.persist"

  /** Every shipped event doubles as its routing key and names its queue. */
  function Entry(event: string): EventConfig {
    EventConfig(event, event, event + ".queue")
  }

  const SALLA_DOMAIN := DomainConfig(
    "salla.product", "salla.product.exchange", [5000, 30000, 180000],
    [Entry(PRODUCT_SYNC_FULL), Entry(PRODUCT_SYNC_INCREMENTAL), Entry(PRODUCT_SYNC_DELETED)])

  const CHAT_DOMAIN := DomainConfig(
    "chat.conversation", "chat.conversation.exchange", [5000, 30000, 180000],
    [Entry(CHAT_CONVERSATION_SUMMARIZE), Entry(CHAT_CONVERSATION_PERSIST)])

  const DOMAINS := [SALLA_DOMAIN, CHAT_DOMAIN]

  /** A key without the two wildcard characters has no wildcard word. */
  lemma {:induction false} NoWildcardCharacter(key: string)
    requires '*' !in key && '#' !in key
    ensures forall i :: 0 <= i < |Words(key)| ==> '*' !in Words(key)[i] && '#' !in Words(key)[i]
    ensures WildcardFree(key)
  {
    if key != [] {
      assert forall c :: c in key[1..] ==> c in key;
      NoWildcardCharacter(key[1..]);
    }
    if i :| 0 <= i < |Words(key)| && (Words(key)[i] == "*" || Words(key)[i] == "#") {
      assert Words(key)[i][0] == '*' || Words(key)[i][0] == '#';
    }
  }

  /** The shipped event names and routing keys all differ in length. */
  function EventLength(i: int, j: int): int {
    if i == 0 then (if j == 0 then 23 else if j == 1 then 30 else 26) else (if j == 0 then 27 else 25)
  }

  lemma ShippedEvents(i: int, j: int)
    requires IsEvent(DOMAINS, i, j)
    ensures 0 <= i <= 1 && 0 <= j <= (if i == 0 then 2 else 1)
    ensures var event := DOMAINS[i].events[j];
      event.event == event.routingKey && |event.event| == EventLength(i, j)
  {
    assert DOMAINS[0].events == SALLA_DOMAIN.events && DOMAINS[1].events == CHAT_DOMAIN.events;
  }

  lemma SallaKeysArePlain(j: int)
    requires 0 <= j < 3
    ensures '*' !in SALLA_DOMAIN.events[j].routingKey && '#' !in SALLA_DOMAIN.events[j].routingKey
  {
    assert '*' !in PRODUCT_SYNC_FULL && '#' !in PRODUCT_SYNC_FULL;
    assert '*' !in PRODUCT_SYNC_INCREMENTAL && '#' !in PRODUCT_SYNC_INCREMENTAL;
    assert '*' !in PRODUCT_SYNC_DELETED && '#' !in PRODUCT_SYNC_DELETED;
  }

  lemma ChatKeysArePlain(j: int)
    requires 0 <= j < 2
    ensures '*' !in CHAT_DOMAIN.events[j].routingKey && '#' !in CHAT_DOMAIN.events[j].routingKey
  {
    assert '*' !in CHAT_CONVERSATION_SUMMARIZE && '#' !in CHAT_CONVERSATION_SUMMARIZE;
    assert '*' !in CHAT_CONVERSATION_PERSIST && '#' !in CHAT_CONVERSATION_PERSIST;
  }

  lemma ShippedKeysAreWildcardFree(i: int, j: int)
    requires IsEvent(DOMAINS, i, j)
    ensures WildcardFree(DOMAINS[i].events[j].routingKey)
  {
    assert DOMAINS == [SALLA_DOMAIN, CHAT_DOMAIN];
    if i == 0 {
      SallaKeysArePlain(j);
    } else {
      ChatKeysArePlain(j);
    }
    NoWildcardCharacter(DOMAINS[i].events[j].routingKey);
  }

  lemma ShippedExchangesAreSeparate()
    ensures SeparateExchanges(DOMAINS) && DistinctDomains(DOMAINS)
  {
    forall i, i', j | 0 <= i < |DOMAINS| && IsDelay(DOMAINS, i', j)
      ensures DOMAINS[i].exchange != RetryName(DOMAINS[i'].domain, DOMAINS[i'].retryDelaysMs[j])
    {
      RetryNameEndsInDigit(DOMAINS[i'].domain, DOMAINS[i'].retryDelaysMs[j]);
      assert DOMAINS[i].exchange[|DOMAINS[i].exchange| - 1] == 'e';
    }
    assert |GLOBAL_DLX| == 7 && |SALLA_DOMAIN.exchange| == 22 && |CHAT_DOMAIN.exchange| == 26;
    assert |SALLA_DOMAIN.domain| == 13 && |CHAT_DOMAIN.domain| == 17;
  }

  lemma ShippedQueueName(i: int, j: int)
    requires IsEvent(DOMAINS, i, j)
    ensures var name := DOMAINS[i].events[j].queueName;
      |name| == EventLength(i, j) + 6 && name[|name| - 1] == 'e'
  {
    ShippedEvents(i, j);
    assert DOMAINS[0].events == SALLA_DOMAIN.events && DOMAINS[1].events == CHAT_DOMAIN.events;
    assert DOMAINS[i].events[j].queueName == DOMAINS[i].events[j].event + ".queue";
  }

  lemma ShippedQueuesAreDistinct()
    ensures DistinctQueues(DOMAINS)
  {
    forall i, j, i', j' | IsEvent(DOMAINS, i, j) && IsEvent(DOMAINS, i', j')
      ensures i != i' || j != j' ==> DOMAINS[i].events[j].queueName != DOMAINS[i'].events[j'].queueName
      ensures DOMAINS[i].events[j].queueName != DOMAINS[i'].events[j'].queueName + ".dlq"
    {
      ShippedEvents(i, j);
      ShippedEvents(i', j');
      ShippedQueueName(i, j);
      ShippedQueueName(i', j');
      var dlq := DOMAINS[i'].events[j'].queueName + ".dlq";
      assert dlq[|dlq| - 1] == 'q';
    }
    forall i, j, i', d | IsEvent(DOMAINS, i, j) && IsDelay(DOMAINS, i', d)
      ensures DOMAINS[i].events[j].queueName != RetryName(DOMAINS[i'].domain, DOMAINS[i'].retryDelaysMs[d])
    {
      ShippedQueueName(i, j);
      RetryNameEndsInDigit(DOMAINS[i'].domain, DOMAINS[i'].retryDelaysMs[d]);
    }
  }

  lemma ShippedDomainsAreWellFormed()
    ensures WellFormed(DOMAINS)
  {
    ShippedExchangesAreSeparate();
    ShippedQueuesAreDistinct();
    forall i, j | IsEvent(DOMAINS, i, j)
      ensures 0 <= i <= 1 && 0 <= j <= (if i == 0 then 2 else 1)
      ensures DOMAINS[i].events[j].event == DOMAINS[i].events[j].routingKey
      ensures |DOMAINS[i].events[j].event| == EventLength(i, j)
      ensures WildcardFree(DOMAINS[i].events[j].routingKey)
    {
      ShippedEvents(i, j);
      ShippedKeysAreWildcardFree(i, j);
    }
  }
}
