/** The bounded tool-calling loop that produces one turn.

    The model provider and the tools are total functions of the round and their input, chosen by the environment; a
    provider call may fail. */
module ChatGeneration {
  import opened Options
  import opened ChatMessages
  import opened GeminiContents
  import opened GeminiPairing
  import opened Sequences

  const MAX_TOOL_ROUNDS := 5
  const CANNOT_ANSWER := "cannot answer"
  const PLEASE_CLARIFY := "please clarify"

  datatype TokenUsage = TokenUsage(
    promptTokens: int, candidateTokens: int, cachedTokens: int, totalTokens: int)

  datatype LlmResponse = LlmResponse(text: Option<string>, toolCalls: seq<ToolCall>, tokenUsage: Option<TokenUsage>)

  datatype ToolResult = ToolResult(forModel: string, cards: seq<string>)

  type Provider = (nat, seq<LlmMessage>) -> Result<LlmResponse, string>

  type Tools = (nat, ToolCall) -> ToolResult

  /** Cards come in the order the tools finish, so only their multiset is known. */
  datatype GenerationResult = GenerationResult(
    finalText: string, messagesToSave: seq<LlmMessage>, cards: multiset<string>, tokenUsage: Option<TokenUsage>)

  function MergeTokenUsage(current: Option<TokenUsage>, incoming: TokenUsage): TokenUsage {
    match current
    case None => incoming
    case Some(c) =>
      TokenUsage(c.promptTokens + incoming.promptTokens, c.candidateTokens + incoming.candidateTokens,
                 c.cachedTokens + incoming.cachedTokens, c.totalTokens + incoming.totalTokens)
  }

  function OrElse(text: Option<string>, fallback: string): string {
    if text.Some? && text.value != "" then text.value else fallback
  }

  lemma OrElseTwice(text: Option<string>, fallback: string)
    requires fallback != ""
    ensures OrElse(Some(OrElse(text, fallback)), fallback) == OrElse(text, fallback) != ""
  {
  }

  lemma FallbacksAreNotEmpty()
    ensures CANNOT_ANSWER != "" && OrElse(Some(PLEASE_CLARIFY), CANNOT_ANSWER) == PLEASE_CLARIFY
  {
    assert |CANNOT_ANSWER| == 13 && |PLEASE_CLARIFY| == 14;
  }

  // ---- What a run of the loop looks like ----

  function ToolMessage(round: nat, call: ToolCall, tools: Tools): LlmMessage {
    LlmMessage(Tool, tools(round, call).forModel, call.id, call.toolName, [])
  }

  function RequestMessage(response: LlmResponse): LlmMessage {
    LlmMessage(Assistant, response.text.GetOr(""), "", "", response.toolCalls)
  }

  function GroupOf(round: nat, response: LlmResponse, tools: Tools): Group {
    Group(RequestMessage(response),
          seq(|response.toolCalls|, i requires 0 <= i < |response.toolCalls| =>
            ToolMessage(round, response.toolCalls[i], tools)))
  }

  /** All cards of one round's tool results. */
  function CardsOf(round: nat, calls: seq<ToolCall>, tools: Tools): multiset<string> {
    if calls == [] then multiset{}
    else
      var n := |calls| - 1;
      CardsOf(round, calls[..n], tools) + multiset(tools(round, calls[n]).cards)
  }

  /** All cards of all rounds. */
  function AllCards(groups: seq<Group>, tools: Tools): multiset<string> {
    if groups == [] then multiset{}
    else
      var n := |groups| - 1;
      AllCards(groups[..n], tools) + CardsOf(n, groups[n].request.toolCalls, tools)
  }

  lemma AllCardsOneMore(groups: seq<Group>, group: Group, tools: Tools)
    ensures AllCards(groups + [group], tools)
         == AllCards(groups, tools) + CardsOf(|groups|, group.request.toolCalls, tools)
  {
    assert (groups + [group])[..|groups|] == groups;
  }

  /** Each prompt is the history followed by what would be saved at that point. */
  ghost predicate Prompted(
    history: seq<LlmMessage>, userMessage: string, prompts: seq<seq<LlmMessage>>, groups: seq<Group>)
  {
    && |groups| <= |prompts| <= |groups| + 1
    && forall i :: 0 <= i < |prompts| ==> prompts[i] == Prompt(history, userMessage, groups[..i])
  }

  /** `groups` are the tool rounds the provider asked for when prompted so. */
  ghost predicate AskedFor(provider: Provider, tools: Tools, prompts: seq<seq<LlmMessage>>, groups: seq<Group>) {
    && |groups| <= |prompts|
    && forall i :: 0 <= i < |groups| ==>
      var reply := provider(i, prompts[i]);
      reply.Ok? && reply.value.toolCalls != [] && groups[i] == GroupOf(i, reply.value, tools)
  }

  predicate Reports(provider: Provider, prompts: seq<seq<LlmMessage>>, i: nat)
    requires i < |prompts|
  {
    var reply := provider(i, prompts[i]);
    reply.Ok? && reply.value.tokenUsage.Some?
  }

  function Added(a: TokenUsage, b: TokenUsage): TokenUsage {
    TokenUsage(a.promptTokens + b.promptTokens, a.candidateTokens + b.candidateTokens,
               a.cachedTokens + b.cachedTokens, a.totalTokens + b.totalTokens)
  }

  /** The componentwise sum of the usages the provider reported. */
  function TotalUsage(provider: Provider, prompts: seq<seq<LlmMessage>>): TokenUsage {
    if prompts == [] then TokenUsage(0, 0, 0, 0)
    else
      var n := |prompts| - 1;
      var before := TotalUsage(provider, prompts[..n]);
      if Reports(provider, prompts, n) then Added(before, provider(n, prompts[n]).value.tokenUsage.value) else before
  }

  ghost predicate Summed(provider: Provider, prompts: seq<seq<LlmMessage>>, usage: Option<TokenUsage>) {
    && (usage.Some? <==> exists i: nat :: i < |prompts| && Reports(provider, prompts, i))
    && TotalUsage(provider, prompts) == usage.GetOr(TokenUsage(0, 0, 0, 0))
  }

  // ---- The loop ----

  lemma SumOneMore(
    provider: Provider, prompts: seq<seq<LlmMessage>>, usage: Option<TokenUsage>, messages: seq<LlmMessage>)
    requires Summed(provider, prompts, usage)
    ensures var reply := provider(|prompts|, messages);
      Summed(provider, prompts + [messages],
             if reply.Ok? && reply.value.tokenUsage.Some?
             then Some(MergeTokenUsage(usage, reply.value.tokenUsage.value)) else usage)
  {
    var longer := prompts + [messages];
    assert longer[..|prompts|] == prompts;
    assert forall i: nat :: i < |prompts| ==> Reports(provider, longer, i) == Reports(provider, prompts, i);
    assert usage.Some? ==> exists i: nat :: i < |longer| && Reports(provider, longer, i);
    assert Reports(provider, longer, |prompts|) ==> exists i: nat :: i < |longer| && Reports(provider, longer, i);
  }

  lemma Reassociate<T>(a: seq<T>, b: seq<T>, c: seq<T>, d: seq<T>)
    ensures a + b + c + d == a + (b + c + d)
  {
  }

  lemma FlattenOneMore(groups: seq<Group>, group: Group)
    ensures FlattenGroups(groups + [group]) == FlattenGroups(groups) + [group.request] + group.results
  {
    assert (groups + [group])[..|groups|] == groups;
  }

  lemma PromptIsHistoryAndSaved(history: seq<LlmMessage>, userMessage: string, groups: seq<Group>)
    ensures Prompt(history, userMessage, groups) == history + ([UserMessage(userMessage)] + FlattenGroups(groups))
  {
  }

  lemma PromptOneMore(
    history: seq<LlmMessage>, userMessage: string, prompts: seq<seq<LlmMessage>>, groups: seq<Group>,
    messages: seq<LlmMessage>)
    requires Prompted(history, userMessage, prompts, groups) && |prompts| == |groups|
    requires messages == Prompt(history, userMessage, groups)
    ensures Prompted(history, userMessage, prompts + [messages], groups)
  {
    assert groups[..|groups|] == groups;
  }

  lemma GroupOneMore(
    history: seq<LlmMessage>, userMessage: string, prompts: seq<seq<LlmMessage>>, groups: seq<Group>, group: Group)
    requires Prompted(history, userMessage, prompts, groups) && |prompts| == |groups| + 1
    ensures Prompted(history, userMessage, prompts, groups + [group])
  {
    forall i | 0 <= i <= |groups|
      ensures (groups + [group])[..i] == groups[..i]
    {}
  }

  lemma AskedOneMore(
    provider: Provider, tools: Tools, prompts: seq<seq<LlmMessage>>, groups: seq<Group>, messages: seq<LlmMessage>)
    requires AskedFor(provider, tools, prompts, groups) && |prompts| == |groups|
    ensures AskedFor(provider, tools, prompts + [messages], groups)
    ensures var reply := provider(|prompts|, messages);
      reply.Ok? && reply.value.toolCalls != [] ==>
        AskedFor(provider, tools, prompts + [messages], groups + [GroupOf(|prompts|, reply.value, tools)])
  {
  }

  /** Runs the requested tools; the results keep the order of the calls. */
  method ExecuteTools(round: nat, response: LlmResponse, tools: Tools)
    returns (results: seq<LlmMessage>, cards: multiset<string>)
    ensures Group(RequestMessage(response), results) == GroupOf(round, response, tools)
    ensures cards == CardsOf(round, response.toolCalls, tools)
  {
    var calls := response.toolCalls;
    results, cards := [], multiset{};
    for j := 0 to |calls|
      invariant |results| == j
      invariant forall i :: 0 <= i < j ==> results[i] == ToolMessage(round, calls[i], tools)
      invariant cards == CardsOf(round, calls[..j], tools)
    {
      var result := tools(round, calls[j]);
      assert calls[..j + 1][..j] == calls[..j];
      cards := cards + multiset(result.cards);
      results := results + [LlmMessage(Tool, result.forModel, calls[j].id, calls[j].toolName, [])];
    }
    assert calls[..|calls|] == calls;
  }

  /** How the loop stands: what the next call would be given, what would be saved, and what was said so far. */
  datatype Progress = Progress(
    messages: seq<LlmMessage>, messagesToSave: seq<LlmMessage>, tokenUsage: Option<TokenUsage>,
    prompts: seq<seq<LlmMessage>>, groups: seq<Group>, cards: multiset<string>)

  ghost predicate Consistent(
    provider: Provider, tools: Tools, history: seq<LlmMessage>, userMessage: string, p: Progress)
  {
    && p.messages == history + p.messagesToSave
    && p.messagesToSave == [UserMessage(userMessage)] + FlattenGroups(p.groups)
    && Prompted(history, userMessage, p.prompts, p.groups) && AskedFor(provider, tools, p.prompts, p.groups)
    && Summed(provider, p.prompts, p.tokenUsage)
    && p.cards == AllCards(p.groups, tools)
  }

  /** The provider call of a round. */
  function AfterReply(p: Progress, reply: Result<LlmResponse, string>): Progress {
    p.(prompts := p.prompts + [p.messages],
       tokenUsage := if reply.Ok? && reply.value.tokenUsage.Some?
                     then Some(MergeTokenUsage(p.tokenUsage, reply.value.tokenUsage.value)) else p.tokenUsage)
  }

  /** The tool calls of a round. */
  function AfterTools(p: Progress, group: Group, cards: multiset<string>): Progress {
    p.(messages := p.messages + [group.request] + group.results,
       messagesToSave := p.messagesToSave + [group.request] + group.results,
       groups := p.groups + [group], cards := p.cards + cards)
  }

  lemma ReplyKeepsConsistent(
    provider: Provider, tools: Tools, history: seq<LlmMessage>, userMessage: string, p: Progress)
    requires Consistent(provider, tools, history, userMessage, p) && |p.prompts| == |p.groups|
    ensures Consistent(provider, tools, history, userMessage, AfterReply(p, provider(|p.prompts|, p.messages)))
  {
    PromptIsHistoryAndSaved(history, userMessage, p.groups);
    PromptOneMore(history, userMessage, p.prompts, p.groups, p.messages);
    AskedOneMore(provider, tools, p.prompts, p.groups, p.messages);
    SumOneMore(provider, p.prompts, p.tokenUsage, p.messages);
  }

  lemma ToolsKeepConsistent(
    provider: Provider, tools: Tools, history: seq<LlmMessage>, userMessage: string, p: Progress, group: Group)
    requires Consistent(provider, tools, history, userMessage, p) && |p.prompts| == |p.groups| + 1
    requires var reply := provider(|p.groups|, p.prompts[|p.groups|]);
      reply.Ok? && reply.value.toolCalls != [] && group == GroupOf(|p.groups|, reply.value, tools)
    ensures Consistent(provider, tools, history, userMessage,
                       AfterTools(p, group, CardsOf(|p.groups|, group.request.toolCalls, tools)))
  {
    AllCardsOneMore(p.groups, group, tools);
    FlattenOneMore(p.groups, group);
    GroupOneMore(history, userMessage, p.prompts, p.groups, group);
    Reassociate(history, p.messagesToSave, [group.request], group.results);
    Reassociate([UserMessage(userMessage)], FlattenGroups(p.groups), [group.request], group.results);
  }

  datatype RoundOutcome = Failed(error: string) | Replied(text: string) | UsedTools

  /** What a reply of the provider makes of a round. */
  predicate EndsWith(reply: Result<LlmResponse, string>, outcome: RoundOutcome) {
    match outcome
    case Failed(error) => reply == Err(error)
    case Replied(text) =>
      && reply.Ok? && reply.value.toolCalls == []
      && text == OrElse(reply.value.text, CANNOT_ANSWER) == OrElse(Some(text), CANNOT_ANSWER)
    case UsedTools => reply.Ok? && reply.value.toolCalls != []
  }

  /** One round: ask the provider, then run the tools it asked for. */
  method Round(history: seq<LlmMessage>, userMessage: string, provider: Provider, tools: Tools, p: Progress)
    returns (p': Progress, outcome: RoundOutcome)
    requires Consistent(provider, tools, history, userMessage, p) && |p.prompts| == |p.groups|
    ensures Consistent(provider, tools, history, userMessage, p')
    ensures |p'.prompts| == |p.prompts| + 1
    ensures |p'.groups| == |p.groups| + if outcome.UsedTools? then 1 else 0
    ensures EndsWith(provider(|p.prompts|, p'.prompts[|p.prompts|]), outcome)
  {
    var round := |p.prompts|;
    var reply := provider(round, p.messages);
    ReplyKeepsConsistent(provider, tools, history, userMessage, p);
    p' := AfterReply(p, reply);
    if reply.Err? {
      return p', Failed(reply.error);
    }
    var response := reply.value;
    if response.toolCalls == [] {
      FallbacksAreNotEmpty();
      OrElseTwice(response.text, CANNOT_ANSWER);
      return p', Replied(OrElse(response.text, CANNOT_ANSWER));
    }
    var toolResults, cards := ExecuteTools(round, response, tools);
    var group := Group(RequestMessage(response), toolResults);
    ToolsKeepConsistent(provider, tools, history, userMessage, p', group);
    p' := AfterTools(p', group, cards);
    outcome := UsedTools;
  }

  lemma StartIsConsistent(provider: Provider, tools: Tools, history: seq<LlmMessage>, userMessage: string)
    ensures var user := UserMessage(userMessage);
      Consistent(provider, tools, history, userMessage, Progress(history + [user], [user], None, [], [], multiset{}))
  {
  }

  /** The tool-calling loop: it ends with a failed call, a reply, or the last round's tools. */
  method RunRounds(history: seq<LlmMessage>, userMessage: string, provider: Provider, tools: Tools)
    returns (p: Progress, outcome: RoundOutcome)
    ensures 1 <= |p.prompts| <= MAX_TOOL_ROUNDS
    ensures Consistent(provider, tools, history, userMessage, p)
    ensures |p.groups| == |p.prompts| - if outcome.UsedTools? then 0 else 1
    ensures outcome.UsedTools? ==> |p.prompts| == MAX_TOOL_ROUNDS
    ensures EndsWith(provider(|p.prompts| - 1, p.prompts[|p.prompts| - 1]), outcome)
  {
    var user := UserMessage(userMessage);
    p := Progress(history + [user], [user], None, [], [], multiset{});
    StartIsConsistent(provider, tools, history, userMessage);
    outcome := UsedTools;
    for round := 0 to MAX_TOOL_ROUNDS
      invariant |p.prompts| == |p.groups| == round && outcome.UsedTools?
      invariant Consistent(provider, tools, history, userMessage, p)
      invariant round > 0 ==> EndsWith(provider(round - 1, p.prompts[round - 1]), outcome)
    {
      p, outcome := Round(history, userMessage, provider, tools, p);
      if !outcome.UsedTools? {
        return;
      }
    }
  }

  method Generate(history: seq<LlmMessage>, userMessage: string, provider: Provider, tools: Tools)
    returns (result: Result<GenerationResult, string>, p: Progress)
    // At most five provider calls; each prompt is the history followed by what would be saved.
    ensures 1 <= |p.prompts| <= 5
    ensures Consistent(provider, tools, history, userMessage, p)
    // A failing provider call, and nothing else, fails the turn.
    ensures result.Err? <==> provider(|p.prompts| - 1, p.prompts[|p.prompts| - 1]).Err?
    ensures result.Err? ==> result.error == provider(|p.prompts| - 1, p.prompts[|p.prompts| - 1]).error
    ensures result.Ok? ==>
      && result.value.messagesToSave == p.messagesToSave && result.value.tokenUsage == p.tokenUsage
      && result.value.cards == p.cards
    ensures result.Ok? && |p.prompts| == |p.groups| ==>
      |p.groups| == 5 && result.value.finalText == PLEASE_CLARIFY
    ensures result.Ok? && |p.prompts| > |p.groups| ==>
      var last := provider(|p.groups|, p.prompts[|p.groups|]).value;
      && last.toolCalls == []
      && result.value.finalText ==
         if last.text.Some? && last.text.value != "" then last.text.value else CANNOT_ANSWER
  {
    FallbacksAreNotEmpty();
    var outcome;
    p, outcome := RunRounds(history, userMessage, provider, tools);
    if outcome.Failed? {
      return Err(outcome.error), p;
    }
    var finalText := Some(if outcome.Replied? then outcome.text else PLEASE_CLARIFY);
    result := Ok(GenerationResult(OrElse(finalText, CANNOT_ANSWER), p.messagesToSave, p.cards, p.tokenUsage));
  }

  // ---- What follows ----

  lemma RoundsAreValidGroups(provider: Provider, tools: Tools, prompts: seq<seq<LlmMessage>>, groups: seq<Group>)
    requires AskedFor(provider, tools, prompts, groups)
    ensures ValidGroups(groups)
  {
  }

  lemma PromptGrows(history: seq<LlmMessage>, userMessage: string, groups: seq<Group>, group: Group)
    ensures Prompt(history, userMessage, groups + [group])
         == Prompt(history, userMessage, groups) + [group.request] + group.results
  {
    var start, flat := history + [UserMessage(userMessage)], FlattenGroups(groups);
    FlattenOneMore(groups, group);
    Assoc(start, flat, [group.request]);
    Assoc(start, flat + [group.request], group.results);
  }

  /** `next` is `prompt` with the request and, for each call in order, what its tool gave for the model. */
  ghost predicate CarriesResults(
    prompt: seq<LlmMessage>, next: seq<LlmMessage>, round: nat, response: LlmResponse, tools: Tools)
  {
    var n, calls := |prompt|, response.toolCalls;
    && |next| == n + 1 + |calls| && next[..n] == prompt
    && next[n] == LlmMessage(Assistant, if response.text.Some? then response.text.value else "", "", "", calls)
    && forall c :: 0 <= c < |calls| ==>
      next[n + 1 + c] == LlmMessage(Tool, tools(round, calls[c]).forModel, calls[c].id, calls[c].toolName, [])
  }

  lemma GroupCarriesResults(prompt: seq<LlmMessage>, round: nat, response: LlmResponse, tools: Tools)
    ensures var group := GroupOf(round, response, tools);
      CarriesResults(prompt, prompt + [group.request] + group.results, round, response, tools)
  {
  }

  /** After each round of tools the next prompt is the last one, the request as the provider made it, and for each of
      its calls, in order, what that tool gave for the model. */
  lemma NextPromptCarriesResults(
    provider: Provider, tools: Tools, history: seq<LlmMessage>, userMessage: string, p: Progress, i: nat)
    requires Consistent(provider, tools, history, userMessage, p) && i + 1 < |p.prompts|
    ensures var reply := provider(i, p.prompts[i]);
      && reply.Ok? && reply.value.toolCalls != []
      && CarriesResults(p.prompts[i], p.prompts[i + 1], i, reply.value, tools)
  {
    var reply := provider(i, p.prompts[i]);
    SplitLast(p.groups[..i + 1]);
    assert p.groups[..i + 1][..i] == p.groups[..i];
    PromptGrows(history, userMessage, p.groups[..i], p.groups[i]);
    GroupCarriesResults(p.prompts[i], i, reply.value, tools);
  }

  /** The sum of one component over all replies that report usage. */
  function Reported(provider: Provider, prompts: seq<seq<LlmMessage>>, component: TokenUsage -> int): int {
    if prompts == [] then 0
    else
      var n := |prompts| - 1;
      var reply := provider(n, prompts[n]);
      Reported(provider, prompts[..n], component) +
      if reply.Ok? && reply.value.tokenUsage.Some? then component(reply.value.tokenUsage.value) else 0
  }

  /** The usage of a generation is, component by component, what the provider reported, and missing when it reported
      none. */
  lemma UsageIsWhatWasReported(
    provider: Provider, tools: Tools, history: seq<LlmMessage>, userMessage: string, p: Progress)
    requires Consistent(provider, tools, history, userMessage, p)
    ensures p.tokenUsage.None? <==> forall i: nat :: i < |p.prompts| ==> !Reports(provider, p.prompts, i)
    ensures p.tokenUsage.Some? ==>
      && p.tokenUsage.value.promptTokens == Reported(provider, p.prompts, (u: TokenUsage) => u.promptTokens)
      && p.tokenUsage.value.candidateTokens == Reported(provider, p.prompts, (u: TokenUsage) => u.candidateTokens)
      && p.tokenUsage.value.cachedTokens == Reported(provider, p.prompts, (u: TokenUsage) => u.cachedTokens)
      && p.tokenUsage.value.totalTokens == Reported(provider, p.prompts, (u: TokenUsage) => u.totalTokens)
  {
    TotalIsReported(provider, p.prompts, (u: TokenUsage) => u.promptTokens, (u: TokenUsage) => u.candidateTokens,
                    (u: TokenUsage) => u.cachedTokens, (u: TokenUsage) => u.totalTokens);
  }

  lemma {:induction false} TotalIsReported(
    provider: Provider, prompts: seq<seq<LlmMessage>>, a: TokenUsage -> int, b: TokenUsage -> int, c: TokenUsage -> int,
    d: TokenUsage -> int)
    requires forall u: TokenUsage ::
      a(u) == u.promptTokens && b(u) == u.candidateTokens && c(u) == u.cachedTokens && d(u) == u.totalTokens
    ensures TotalUsage(provider, prompts) == TokenUsage(
              Reported(provider, prompts, a), Reported(provider, prompts, b), Reported(provider, prompts, c),
              Reported(provider, prompts, d))
  {
    if prompts != [] {
      TotalIsReported(provider, prompts[..|prompts| - 1], a, b, c, d);
    }
  }

  /** At every provider call, whatever history was stored, the contents sent are well paired. */
  lemma EveryPromptIsWellPaired(
    provider: Provider, tools: Tools, history: seq<LlmMessage>, userMessage: string, p: Progress, i: nat)
    requires Consistent(provider, tools, history, userMessage, p) && i < |p.prompts|
    requires history != [] ==> history[0].role == User
    ensures StartsWithUser(Contents(p.prompts[i])) && WellPaired(Contents(p.prompts[i]))
  {
    RoundsAreValidGroups(provider, tools, p.prompts, p.groups);
    PromptIsWellPaired(history, userMessage, p.groups[..i]);
  }

  /** The saved messages and a reply are one complete turn. */
  lemma SavedMessagesAreATurn(
    provider: Provider, tools: Tools, history: seq<LlmMessage>, userMessage: string, p: Progress, reply: string)
    requires Consistent(provider, tools, history, userMessage, p)
    ensures var turn := Turn(UserMessage(userMessage), p.groups, AssistantMessage(reply));
      ValidTurn(turn) && TurnMessages(turn) == p.messagesToSave + [AssistantMessage(reply)]
  {
    RoundsAreValidGroups(provider, tools, p.prompts, p.groups);
  }
}
