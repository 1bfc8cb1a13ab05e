/** One chat turn from end to end: read the session, prompt, generate, append, trigger archive and summary. */
module ChatService {
  import opened Options
  import opened ChatMessages
  import opened GeminiContents
  import opened GeminiPairing
  import opened ChatGeneration
  import opened ConversationContext
  import opened Sequences
  import Store = ConversationStore

  datatype PersistJob = PersistJob(userMessage: string, assistantMessage: string, cards: seq<string>)

  datatype ChatResponse = ChatResponse(replyText: string, cards: seq<string>)

  /** The response builder: the answer with the card markers removed, and the cards they name.  Its regular expressions
      are not modelled. */
  type Builder = (string, multiset<string>) -> ChatResponse

  /** Ask for a summary of everything once a whole interval lies past the cursor. */
  function SummaryDue(length: nat, lastSummarizedCount: nat): seq<nat> {
    if length - lastSummarizedCount >= SUMMARY_MESSAGE_INTERVAL then [length] else []
  }

  /** Every provider call of the turn saw well-paired contents. */
  ghost predicate AlwaysPaired(p: Progress) {
    && 1 <= |p.prompts| <= MAX_TOOL_ROUNDS
    && forall i :: 0 <= i < |p.prompts| ==>
      StartsWithUser(Contents(p.prompts[i])) && WellPaired(Contents(p.prompts[i]))
  }

  /** The first prompt is the new message behind the longest history that starts with the user, has at most 30 messages
      and lies past the cursor.  A cursor past the end leaves nothing. */
  ghost predicate PromptedFrom(session: seq<LlmMessage>, cursor: nat, userMessage: string, p: Progress) {
    && |p.prompts| >= 1 && |p.prompts[0]| >= 1
    && var n := |p.prompts[0]| - 1;
    && p.prompts[0][n] == UserMessage(userMessage)
    && IsLongestFromUser(if cursor <= |session| then session[cursor..] else [], p.prompts[0][..n], 30)
  }

  ghost predicate Completes(turn: Turn, userMessage: string, p: Progress, reply: string) {
    && ValidTurn(turn) && turn.user == UserMessage(userMessage) && turn.reply == AssistantMessage(reply)
    && TurnMessages(turn) == p.messagesToSave + [AssistantMessage(reply)]
  }

  class ChatService {
    const store: Store.ConversationStore
    var persistJobs: seq<PersistJob>
    var summaryJobs: seq<nat>     // the message counts to summarise up to
    var trackedTokens: seq<int>   // one entry for each tracked turn

    constructor (store: Store.ConversationStore)
      ensures this.store == store && persistJobs == [] && summaryJobs == [] && trackedTokens == []
    {
      this.store, persistJobs, summaryJobs, trackedTokens := store, [], [], [];
    }

    /** `chatEnabled` is the store's setting.  For any stored session: a failing turn changes nothing; a successful one
        appends one complete turn, queues it with its cards for archiving, asks for a summary once enough lies past the
        cursor, and tracks its tokens. */
    method HandleMessage(chatEnabled: bool, userMessage: string, provider: Provider, tools: Tools, build: Builder)
      returns (result: Result<ChatResponse, string>, p: Progress, ghost turn: Turn)
      modifies this, store`session, store`turns
      ensures old(store.Valid()) ==> store.Valid()
      ensures result.Err? ==> unchanged(this) && unchanged(store)
      ensures !chatEnabled ==> result.Err?
      ensures chatEnabled ==>
        AlwaysPaired(p) && PromptedFrom(old(store.session), store.lastSummarizedCount, userMessage, p)
      ensures result.Ok? ==>
        && ValidTurn(turn) && turn.user == UserMessage(userMessage)
        && turn.reply == AssistantMessage(result.value.replyText)
        && TurnMessages(turn) == p.messagesToSave + [turn.reply]
        && store.turns == old(store.turns) + [turn] && store.session == old(store.session) + TurnMessages(turn)
      ensures result.Ok? ==>
        && (exists finalText :: result.value == build(finalText, AllCards(p.groups, tools)))
        && persistJobs == old(persistJobs) + [PersistJob(userMessage, result.value.replyText, result.value.cards)]
        && summaryJobs == old(summaryJobs) +
             (if |store.session| - store.lastSummarizedCount >= 15 then [|store.session|] else [])
        && trackedTokens == old(trackedTokens) + [if p.tokenUsage.Some? then p.tokenUsage.value.totalTokens else 0]
    {
      turn := Turn(UserMessage(userMessage), [], AssistantMessage(""));
      if !chatEnabled {
        p := Progress([], [], None, [], [], multiset{});
        return Err("Chat assistant is currently disabled for this store."), p, turn;
      }
      var generated: Result<GenerationResult, string>;
      ghost var saved: string -> Turn;
      generated, p, saved := GenerateFromSession(userMessage, provider, tools);
      if generated.Err? {
        return Err(generated.error), p, turn;
      }
      var response := build(generated.value.finalText, generated.value.cards);
      turn := saved(response.replyText);
      var messagesToPersist := generated.value.messagesToSave + [AssistantMessage(response.replyText)];
      assert Completes(turn, userMessage, p, response.replyText);
      RecordTurn(messagesToPersist, userMessage, response, generated.value.tokenUsage, turn);
      result := Ok(response);
    }

    /** What follows a reply: the append, and the three triggers. */
    method RecordTurn(
      messagesToPersist: seq<LlmMessage>, userMessage: string, response: ChatResponse, usage: Option<TokenUsage>,
      ghost turn: Turn)
      modifies this, store`session, store`turns
      ensures store.session == old(store.session) + messagesToPersist && store.turns == old(store.turns) + [turn]
      ensures old(store.Valid()) && ValidTurn(turn) && messagesToPersist == TurnMessages(turn) ==> store.Valid()
      ensures persistJobs == old(persistJobs) + [PersistJob(userMessage, response.replyText, response.cards)]
      // The count queued is the length the append returned, once 15 messages lie past the cursor.
      ensures |store.session| - store.lastSummarizedCount < 15 ==> summaryJobs == old(summaryJobs)
      ensures |store.session| - store.lastSummarizedCount >= 15 ==> summaryJobs == old(summaryJobs) + [|store.session|]
      ensures trackedTokens == old(trackedTokens) + [if usage.Some? then usage.value.totalTokens else 0]
    {
      var totalMessageCount := store.AppendMessages(messagesToPersist, turn);
      persistJobs := persistJobs + [PersistJob(userMessage, response.replyText, response.cards)];
      CheckAndTriggerSummary(totalMessageCount);
      trackedTokens := trackedTokens + [if usage.Some? then usage.value.totalTokens else 0];
    }

    /** Reads the session once, picks the history and runs the generation.  `saved` is the turn a reply completes. */
    method GenerateFromSession(userMessage: string, provider: Provider, tools: Tools)
      returns (generated: Result<GenerationResult, string>, p: Progress, ghost saved: string -> Turn)
      ensures AlwaysPaired(p) && PromptedFrom(store.session, store.lastSummarizedCount, userMessage, p)
      ensures generated.Ok? ==>
        && generated.value.messagesToSave == p.messagesToSave && generated.value.tokenUsage == p.tokenUsage
        && generated.value.cards == p.cards == AllCards(p.groups, tools)
      ensures forall reply :: Completes(saved(reply), userMessage, p, reply)
    {
      var fullHistory := store.GetHistory(0, -1);
      var start := if store.lastSummarizedCount < |fullHistory| then store.lastSummarizedCount else |fullHistory|;
      var safeHistory := GetPromptHistory(fullHistory[start..], HISTORY_TAIL_CEILING);
      generated, p := GenerateFromHistory(safeHistory, userMessage, provider, tools);
      assert p.prompts[0][..|safeHistory|] == safeHistory;
      assert store.lastSummarizedCount >= |fullHistory| ==> fullHistory[start..] == [];
      saved := TurnSaved(userMessage, p.groups);
    }

    method CheckAndTriggerSummary(totalMessageCount: nat)
      modifies this`summaryJobs
      ensures summaryJobs == old(summaryJobs) + SummaryDue(totalMessageCount, store.lastSummarizedCount)
      ensures totalMessageCount - store.lastSummarizedCount < 15 ==> summaryJobs == old(summaryJobs)
      ensures totalMessageCount - store.lastSummarizedCount >= 15 ==>
        summaryJobs == old(summaryJobs) + [totalMessageCount]
    {
      var unsummarizedMessageCount := totalMessageCount - store.lastSummarizedCount;
      if unsummarizedMessageCount < SUMMARY_MESSAGE_INTERVAL {
        return;
      }
      summaryJobs := summaryJobs + [totalMessageCount];
    }
  }

  /** The generation with what follows from it for a history that starts with the user. */
  method GenerateFromHistory(history: seq<LlmMessage>, userMessage: string, provider: Provider, tools: Tools)
    returns (generated: Result<GenerationResult, string>, p: Progress)
    requires history != [] ==> history[0].role == User
    ensures AlwaysPaired(p) && p.prompts[0] == history + [UserMessage(userMessage)]
    ensures generated.Ok? ==>
      && generated.value.messagesToSave == p.messagesToSave && generated.value.tokenUsage == p.tokenUsage
      && generated.value.cards == p.cards
    ensures forall reply :: Completes(TurnSaved(userMessage, p.groups)(reply), userMessage, p, reply)
    ensures p.cards == AllCards(p.groups, tools)
  {
    generated, p := Generate(history, userMessage, provider, tools);
    PromptsArePaired(provider, tools, history, userMessage, p);
    SavedCompletes(provider, tools, history, userMessage, p);
  }

  /** The turn a reply completes. */
  function TurnSaved(userMessage: string, groups: seq<Group>): string -> Turn {
    (reply: string) => Turn(UserMessage(userMessage), groups, AssistantMessage(reply))
  }

  lemma SavedCompletes(
    provider: Provider, tools: Tools, history: seq<LlmMessage>, userMessage: string, p: Progress)
    requires Consistent(provider, tools, history, userMessage, p)
    ensures forall reply :: Completes(TurnSaved(userMessage, p.groups)(reply), userMessage, p, reply)
    ensures p.cards == AllCards(p.groups, tools)
  {
    forall reply: string
      ensures Completes(TurnSaved(userMessage, p.groups)(reply), userMessage, p, reply)
    {
      SavedMessagesAreATurn(provider, tools, history, userMessage, p, reply);
    }
  }

  lemma PromptsArePaired(
    provider: Provider, tools: Tools, history: seq<LlmMessage>, userMessage: string, p: Progress)
    requires Consistent(provider, tools, history, userMessage, p) && |p.prompts| >= 1
    requires history != [] ==> history[0].role == User
    requires |p.prompts| <= MAX_TOOL_ROUNDS
    ensures AlwaysPaired(p)
    ensures p.prompts[0] == history + [UserMessage(userMessage)]
  {
    forall i | 0 <= i < |p.prompts|
      ensures StartsWithUser(Contents(p.prompts[i])) && WellPaired(Contents(p.prompts[i]))
    {
      EveryPromptIsWellPaired(provider, tools, history, userMessage, p, i);
    }
    assert p.groups[..0] == [];
    assert FlattenGroups([]) == [];
    assert history + [UserMessage(userMessage)] + [] == history + [UserMessage(userMessage)];
  }

  /** In a session of whole turns the history in the first prompt starts at the first turn boundary past the cursor from
      which at most 30 messages follow. */
  lemma PromptStartsAtBoundary(
    turns: seq<Turn>, session: seq<LlmMessage>, cursor: nat, userMessage: string, p: Progress)
    returns (position: nat)
    requires ValidTurns(turns) && session == Flatten(turns) && IsBoundary(turns, cursor)
    requires PromptedFrom(session, cursor, userMessage, p)
    ensures cursor <= position <= |session| && IsBoundary(turns, position) && |session| - position <= 30
    ensures forall b: nat :: cursor <= b < position && IsBoundary(turns, b) ==> |session| - b > 30
    ensures p.prompts[0] == session[position..] + [UserMessage(userMessage)]
  {
    position := PromptHistoryIsWholeTurns(turns, session, cursor, 30);
    var n := |p.prompts[0]| - 1;
    LongestFromUserIsUnique(session[cursor..], p.prompts[0][..n], 30);
    SplitLast(p.prompts[0]);
  }

  /** In a session of whole turns the first prompt holds everything past the cursor exactly when that fits the ceiling,
      so that the summary and the prompt cover the session. */
  lemma PromptCoversExactly(
    turns: seq<Turn>, session: seq<LlmMessage>, cursor: nat, userMessage: string, p: Progress)
    requires ValidTurns(turns) && session == Flatten(turns) && IsBoundary(turns, cursor)
    requires PromptedFrom(session, cursor, userMessage, p)
    ensures cursor <= |session|
    ensures session[..cursor] + p.prompts[0] == session + [UserMessage(userMessage)] <==> |session| - cursor <= 30
  {
    CoversWithoutGapExactly(turns, session, cursor, 30);
    var n, history := |p.prompts[0]| - 1, PromptHistory(session[cursor..], 30);
    LongestFromUserIsUnique(session[cursor..], p.prompts[0][..n], 30);
    SplitLast(p.prompts[0]);
    Assoc(session[..cursor], history, [UserMessage(userMessage)]);
    SameLastCancels(session[..cursor] + history, session, UserMessage(userMessage));
  }

  lemma SameLastCancels<T>(a: seq<T>, b: seq<T>, last: T)
    ensures a + [last] == b + [last] <==> a == b
  {
    if a + [last] == b + [last] {
      assert a == (a + [last])[..|a|] && b == (b + [last])[..|b|];
    }
  }
}
