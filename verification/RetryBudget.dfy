/** What the retry policy allows each event, configured or not. */
module RetryBudget {
  import opened RetryNaming
  import opened Topology
  import opened TopologyContents

  ghost predicate IsConfigured(domains: seq<DomainConfig>, event: string) {
    exists i, j :: IsEvent(domains, i, j) && domains[i].events[j].event == event
  }

  /** The policy, on a configured event: one retry for each configured delay, with that delay, in order. */
  lemma DecideForConfiguredEvent(domains: seq<DomainConfig>, i: int, j: int, attempt: int)
    requires DistinctEvents(domains) && IsEvent(domains, i, j)
    ensures var domain, event := domains[i], domains[i].events[j];
      Decide(TopologyOf(domains).eventIndex, event.event, attempt) ==
        if 1 <= attempt <= |domain.retryDelaysMs|
        then Retry(attempt + 1, RetryName(domain.domain, domain.retryDelaysMs[attempt - 1]), event.routingKey)
        else DeadLetter
  {
    EventIsRouted(domains, i, j);
  }

  /** An event that is not configured is never retried. */
  lemma UnknownEventsAreNotRetried(domains: seq<DomainConfig>, event: string, attempt: int)
    requires !IsConfigured(domains, event)
    ensures Decide(TopologyOf(domains).eventIndex, event, attempt) == DeadLetter
    ensures MaxRuns(TopologyOf(domains).eventIndex, event) == 1
  {
    if event in TopologyOf(domains).eventIndex {
      var i, j := IndexEntries(domains, event);
      assert false;
    }
  }

  /** A configured event's message runs at most once per configured delay and once more. */
  lemma RunsAllowed(domains: seq<DomainConfig>, i: int, j: int)
    requires DistinctEvents(domains) && IsEvent(domains, i, j)
    ensures MaxRuns(TopologyOf(domains).eventIndex, domains[i].events[j].event) == 1 + |domains[i].retryDelaysMs|
  {
    EventIsRouted(domains, i, j);
  }
}
