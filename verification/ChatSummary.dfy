/** The summariser's consumer.  A job asks to summarise up to a message count that an append once returned. */
module ChatSummary {
  import opened Options
  import opened ChatMessages
  import Store = ConversationStore

  class ChatSummaryConsumer {
    const store: Store.ConversationStore
    /** The message batches of the successful summarise calls, in order. */
    var batches: seq<seq<LlmMessage>>

    constructor (store: Store.ConversationStore)
      ensures this.store == store && batches == []
    {
      this.store, batches := store, [];
    }

    /** One job, with the summariser's answer: an error, no summary, or a new one. */
    method ProcessSummarize(totalMessagesCount: nat, answer: Result<Option<string>, string>)
      returns (result: Result<(), string>)
      modifies this`batches, store`summary, store`lastSummarizedCount
      ensures old(store.Valid()) && IsBoundary(store.turns, totalMessagesCount) ==> store.Valid()
      ensures var cursor := old(store.lastSummarizedCount);
        var batch := Store.ListRange(store.session, cursor, totalMessagesCount - 1);
        if totalMessagesCount <= cursor || batch == [] then
          result.Ok? && unchanged(this) && unchanged(store)
        else if answer.Err? then
          result.Err? && unchanged(this) && unchanged(store)
        else
          && result.Ok?
          && store.lastSummarizedCount == totalMessagesCount
          && batches == old(batches) + [batch]
          && store.summary ==
             (if answer.value.Some? && answer.value.value != "" then answer.value else old(store.summary))
    {
      var lastSummarizedCount := store.lastSummarizedCount;
      if totalMessagesCount <= lastSummarizedCount {
        return Ok(());
      }
      var unsummarizedMessages := store.GetHistory(lastSummarizedCount, totalMessagesCount - 1);
      if unsummarizedMessages == [] {
        return Ok(());
      }
      if answer.Err? {
        return Err(answer.error);
      }
      store.SetLastSummarizedCount(totalMessagesCount);
      if answer.value.Some? && answer.value.value != "" {
        store.SetSummary(answer.value.value);
      }
      batches := batches + [unsummarizedMessages];
      result := Ok(());
    }
  }
}
