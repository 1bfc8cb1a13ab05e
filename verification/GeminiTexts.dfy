/** What the contents of a prompt say, entry by entry. */
module GeminiTexts {
  import opened ChatMessages
  import opened GeminiContents
  import opened GeminiPairing
  import opened Whitespace
  import opened Sequences

  /** A stored message that still speaks in a later prompt: no system message, no tool result, and no tool request
      without a text of its own. */
  predicate StillSpeaks(message: LlmMessage) {
    && message.role != System && message.role != Tool
    && (message.role == Assistant && message.toolCalls != [] ==> Trim(message.content) != "")
  }

  /** What it says: a tool request only its trimmed text, anything else what it said. */
  function Said(message: LlmMessage): LlmMessage {
    if message.role == Assistant && message.toolCalls != []
    then LlmMessage(Assistant, Trim(message.content), "", "", [])
    else message
  }

  ghost predicate Increasing(origins: seq<nat>) {
    forall k, l :: 0 <= k < l < |origins| ==> origins[k] < origins[l]
  }

  /** `texts` is what the messages that still speak say, in order. */
  ghost predicate SpokenBy(texts: seq<LlmMessage>, messages: seq<LlmMessage>, origins: seq<nat>) {
    && |texts| == |origins| && Increasing(origins)
    && (forall i: nat :: i in origins <==> i < |messages| && StillSpeaks(messages[i]))
    && forall k :: 0 <= k < |texts| ==>
      origins[k] in origins && origins[k] < |messages| && texts[k] == Said(messages[origins[k]])
  }

  lemma {:induction false} HistoryStep(history: seq<LlmMessage>)
    requires history != []
    ensures var front, last := history[..|history| - 1], history[|history| - 1];
      HistoryTexts(history) == HistoryTexts(front) + if StillSpeaks(last) then [Said(last)] else []
  {
    var front, last := history[..|history| - 1], history[|history| - 1];
    if last.role != System {
      var filtered := WithoutSystem(front);
      assert (filtered + [last])[..|filtered|] == filtered;
    }
  }

  lemma SpokenOneMore(
    texts: seq<LlmMessage>, front: seq<LlmMessage>, last: LlmMessage, origins: seq<nat>)
    requires SpokenBy(texts, front, origins)
    ensures StillSpeaks(last) ==> SpokenBy(texts + [Said(last)], front + [last], origins + [|front|])
    ensures !StillSpeaks(last) ==> SpokenBy(texts, front + [last], origins)
  {
    assert forall i :: 0 <= i < |front| ==> (front + [last])[i] == front[i];
  }

  /** Of the stored history nothing that was said is dropped, reordered or altered, apart from tool traffic. */
  lemma {:induction false} HistoryStillSpeaks(history: seq<LlmMessage>) returns (origins: seq<nat>)
    ensures SpokenBy(HistoryTexts(history), history, origins)
  {
    origins := [];
    if history != [] {
      var n := |history| - 1;
      var front, last := history[..n], history[n];
      origins := HistoryStillSpeaks(front);
      HistoryStep(history);
      SpokenOneMore(HistoryTexts(front), front, last, origins);
      SplitLast(history);
      if StillSpeaks(last) {
        origins := origins + [n];
      } else {
        assert HistoryTexts(front) + [] == HistoryTexts(front);
      }
    }
  }

  /** A text entry: the assistant's on the model's side, any other on the user's. */
  ghost predicate SaysText(entry: Content, message: LlmMessage) {
    entry.parts == [Text(message.content)] && (entry.role == ModelSide <==> message.role == Assistant)
  }

  /** A request entry: the request's text, when it has one, and then each call with its id, name, arguments and
      signature. */
  ghost predicate SaysRequest(entry: Content, request: LlmMessage) {
    var skip := if Trim(request.content) != "" then 1 else 0;
    && entry.role == ModelSide && |entry.parts| == skip + |request.toolCalls|
    && (skip == 1 ==> entry.parts[0] == Text(Trim(request.content)))
    && forall c :: 0 <= c < |request.toolCalls| ==>
      var call := request.toolCalls[c];
      entry.parts[skip + c] == FunctionCall(call.id, call.toolName, call.arguments, call.thoughtSignature)
  }

  /** An answer entry: each result with its call's id, its tool's name and its content. */
  ghost predicate SaysResults(entry: Content, results: seq<LlmMessage>) {
    && entry.role == UserSide && |entry.parts| == |results|
    && forall c :: 0 <= c < |results| ==>
      entry.parts[c] == FunctionResponse(results[c].toolCallId, results[c].toolName, results[c].content)
  }

  lemma {:induction false} GroupEntries(groups: seq<Group>, k: nat)
    requires k < |groups|
    ensures |GroupContents(groups)| == 2 * |groups|
    ensures GroupContents(groups)[2 * k] == RequestContent(groups[k].request)
    ensures GroupContents(groups)[2 * k + 1] == ResponseContent(groups[k].results)
  {
    var n := |groups| - 1;
    GroupsLength(groups[..n]);
    if k < n {
      GroupEntries(groups[..n], k);
    }
  }

  lemma {:induction false} GroupsLength(groups: seq<Group>)
    ensures |GroupContents(groups)| == 2 * |groups|
  {
    if groups != [] {
      GroupsLength(groups[..|groups| - 1]);
    }
  }

  lemma RequestSaysIt(request: LlmMessage)
    ensures SaysRequest(RequestContent(request), request)
  {
  }

  ghost predicate SaysGroups(entries: seq<Content>, groups: seq<Group>) {
    && |entries| == 2 * |groups|
    && forall k :: 0 <= k < |groups| ==>
      SaysRequest(entries[2 * k], groups[k].request) && SaysResults(entries[2 * k + 1], groups[k].results)
  }

  lemma GroupsAreSaid(groups: seq<Group>)
    ensures SaysGroups(GroupContents(groups), groups)
  {
    GroupsLength(groups);
    forall k | 0 <= k < |groups|
      ensures SaysRequest(GroupContents(groups)[2 * k], groups[k].request)
      ensures SaysResults(GroupContents(groups)[2 * k + 1], groups[k].results)
    {
      GroupEntries(groups, k);
      RequestSaysIt(groups[k].request);
    }
  }

  /** The texts, then the new message, then two entries for each tool round. */
  ghost predicate SaysPrompt(
    contents: seq<Content>, texts: seq<LlmMessage>, userText: string, groups: seq<Group>)
  {
    && |contents| == |texts| + 1 + 2 * |groups|
    && (forall i :: 0 <= i < |texts| ==> SaysText(contents[i], texts[i]))
    && contents[|texts|] == Content(UserSide, [Text(userText)])
    && SaysGroups(contents[|texts| + 1..], groups)
  }

  /** All entries of a prompt: the history's texts, the new message, and for each tool round the request with its calls
      and the answers with what the tools gave. */
  lemma PromptSays(history: seq<LlmMessage>, userText: string, groups: seq<Group>)
    requires ValidGroups(groups)
    ensures SaysPrompt(Contents(Prompt(history, userText, groups)), HistoryTexts(history), userText, groups)
  {
    ContentsOfPrompt(history, userText, groups);
    GroupsAreSaid(groups);
    InThree(HistoryTexts(history), userText, GroupContents(groups), groups);
  }

  lemma InThree(texts: seq<LlmMessage>, userText: string, later: seq<Content>, groups: seq<Group>)
    requires SaysGroups(later, groups)
    ensures SaysPrompt(TextContents(texts) + [TextContent(UserMessage(userText))] + later, texts, userText, groups)
  {
    var front := TextContents(texts) + [TextContent(UserMessage(userText))];
    TakeDrop(front, later);
    assert forall i :: 0 <= i < |texts| ==> (front + later)[i] == TextContent(texts[i]);
  }
}
