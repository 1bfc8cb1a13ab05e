/** What the provider is sent: for any stored history and any turn in progress, function calls and function responses
    pair up.

    A prompt is the stored history, the new user message, and the tool groups of the turn so far. */
module GeminiPairing {
  import opened ChatMessages
  import opened GeminiContents
  import opened Whitespace
  import opened Sequences

  function CallIds(content: Content): seq<string> {
    CallIdsOf(content.parts)
  }

  function CallIdsOf(parts: seq<Part>): seq<string> {
    if parts == [] then []
    else
      var front, last := CallIdsOf(parts[..|parts| - 1]), parts[|parts| - 1];
      if last.FunctionCall? then front + [last.id] else front
  }

  function ResponseIds(content: Content): seq<string> {
    ResponseIdsOf(content.parts)
  }

  function ResponseIdsOf(parts: seq<Part>): seq<string> {
    if parts == [] then []
    else
      var front, last := ResponseIdsOf(parts[..|parts| - 1]), parts[|parts| - 1];
      if last.FunctionResponse? then front + [last.id] else front
  }

  /** The provider's rule: calls are answered at once, one for one and in order, and nothing else is answered. */
  ghost predicate WellPaired(contents: seq<Content>) {
    && (forall i :: 0 <= i < |contents| && CallIds(contents[i]) != [] ==>
          && contents[i].role == ModelSide
          && i + 1 < |contents|
          && contents[i + 1].role == UserSide
          && ResponseIds(contents[i + 1]) == CallIds(contents[i])
          && |contents[i + 1].parts| == |ResponseIds(contents[i + 1])|)
    && (forall i :: 0 <= i < |contents| && ResponseIds(contents[i]) != [] ==>
          i > 0 && CallIds(contents[i - 1]) != [])
  }

  ghost predicate StartsWithUser(contents: seq<Content>) {
    contents != [] && contents[0].role == UserSide
  }

  function ResponseContent(results: seq<LlmMessage>): Content {
    Content(UserSide, seq(|results|, i requires 0 <= i < |results| => ResponsePart(results[i])))
  }

  function GroupContents(groups: seq<Group>): seq<Content> {
    if groups == [] then []
    else
      var last := groups[|groups| - 1];
      GroupContents(groups[..|groups| - 1]) + [RequestContent(last.request), ResponseContent(last.results)]
  }

  function TextContents(messages: seq<LlmMessage>): seq<Content> {
    seq(|messages|, i requires 0 <= i < |messages| => TextContent(messages[i]))
  }

  ghost predicate PlainTexts(messages: seq<LlmMessage>) {
    forall i :: 0 <= i < |messages| ==> messages[i].role != Tool && !IsToolRequest(messages[i])
  }

  ghost predicate ValidGroups(groups: seq<Group>) {
    forall i :: 0 <= i < |groups| ==> ValidGroup(groups[i])
  }

  // ---- Entries, piece by piece ----

  lemma EntriesSnoc(messages: seq<LlmMessage>, message: LlmMessage)
    requires message.role != Tool
    ensures Entries(messages + [message]) == Entries(messages) + [NonToolContent(message)]
  {
    assert (messages + [message])[..|messages|] == messages;
  }

  lemma {:induction false} EntriesOfTexts(messages: seq<LlmMessage>)
    requires PlainTexts(messages)
    ensures Entries(messages) == TextContents(messages)
  {
    if messages != [] {
      var n := |messages| - 1;
      EntriesOfTexts(messages[..n]);
      EntriesSnoc(messages[..n], messages[n]);
      assert messages[..n] + [messages[n]] == messages;
    }
  }

  /** A run of tool results behind a request becomes one entry. */
  lemma {:induction false} EntriesOfResults(before: seq<LlmMessage>, request: LlmMessage, results: seq<LlmMessage>)
    requires request.role != Tool && results != []
    requires forall i :: 0 <= i < |results| ==> results[i].role == Tool
    ensures Entries(before + [request] + results)
         == Entries(before) + [NonToolContent(request), ResponseContent(results)]
  {
    var n := |results| - 1;
    var messages := before + [request] + results;
    assert messages[..|messages| - 1] == before + [request] + results[..n];
    assert messages[|messages| - 1] == results[n];
    EntriesSnoc(before, request);
    if n == 0 {
      assert before + [request] + results[..n] == before + [request];
      assert ResponseContent(results).parts == [ResponsePart(results[0])];
    } else {
      EntriesOfResults(before, request, results[..n]);
      assert messages[|messages| - 2] == results[n - 1];
      assert ResponseContent(results).parts == ResponseContent(results[..n]).parts + [ResponsePart(results[n])];
    }
  }

  lemma {:induction false} EntriesOfGroups(before: seq<LlmMessage>, groups: seq<Group>)
    requires ValidGroups(groups)
    ensures Entries(before + FlattenGroups(groups)) == Entries(before) + GroupContents(groups)
  {
    if groups == [] {
      assert before + FlattenGroups(groups) == before;
    } else {
      var n := |groups| - 1;
      var last := groups[n];
      var flat := FlattenGroups(groups[..n]);
      EntriesOfGroups(before, groups[..n]);
      EntriesOfResults(before + flat, last.request, last.results);
      Assoc(before, flat, GroupMessages(last));
      Assoc(before + flat, [last.request], last.results);
      Assoc(Entries(before), GroupContents(groups[..n]),
            [RequestContent(last.request), ResponseContent(last.results)]);
    }
  }

  // ---- Sanitising ----

  lemma {:induction false} WithoutSystemConcat(a: seq<LlmMessage>, b: seq<LlmMessage>)
    ensures WithoutSystem(a + b) == WithoutSystem(a) + WithoutSystem(b)
  {
    if b == [] {
      assert a + b == a;
    } else {
      var n := |b| - 1;
      WithoutSystemConcat(a, b[..n]);
      assert (a + b)[..|a + b| - 1] == a + b[..n];
    }
  }

  lemma {:induction false} NothingToFilter(messages: seq<LlmMessage>)
    requires forall i :: 0 <= i < |messages| ==> messages[i].role != System
    ensures WithoutSystem(messages) == messages
  {
    if messages != [] {
      NothingToFilter(messages[..|messages| - 1]);
    }
  }

  lemma {:induction false} LastUserOf(before: seq<LlmMessage>, user: LlmMessage, rest: seq<LlmMessage>)
    requires user.role == User && forall i :: 0 <= i < |rest| ==> rest[i].role != User
    ensures LastUserIndex(before + [user] + rest) == |before|
  {
    var messages := before + [user] + rest;
    assert messages[|before|] == user;
    assert forall i :: |before| < i < |messages| ==> messages[i] == rest[i - |before| - 1];
  }

  lemma {:induction false} WithoutToolsIsPlain(messages: seq<LlmMessage>)
    ensures PlainTexts(WithoutTools(messages))
    ensures messages != [] && messages[0].role == User ==>
      WithoutTools(messages) != [] && WithoutTools(messages)[0].role == User
  {
    if messages != [] {
      WithoutToolsIsPlain(messages[..|messages| - 1]);
    }
  }

  lemma {:induction false} WithoutSystemKeepsFirstUser(messages: seq<LlmMessage>)
    requires messages != [] && messages[0].role == User
    ensures WithoutSystem(messages) != [] && WithoutSystem(messages)[0].role == User
  {
    if |messages| > 1 {
      WithoutSystemKeepsFirstUser(messages[..|messages| - 1]);
    }
  }

  // ---- The contents of a prompt ----

  function Prompt(history: seq<LlmMessage>, userText: string, groups: seq<Group>): seq<LlmMessage> {
    history + [UserMessage(userText)] + FlattenGroups(groups)
  }

  /** The plain text of the earlier turns. */
  function HistoryTexts(history: seq<LlmMessage>): seq<LlmMessage> {
    WithoutTools(WithoutSystem(history))
  }

  lemma GroupRoles(groups: seq<Group>, rest: seq<LlmMessage>)
    requires ValidGroups(groups) && rest == FlattenGroups(groups)
    ensures forall i :: 0 <= i < |rest| ==> rest[i].role != User && rest[i].role != System
  {
    GroupsHoldNoUser(groups);
    forall i | 0 <= i < |rest|
      ensures rest[i].role != User && rest[i].role != System
    {
      assert rest[i] in rest;
    }
  }

  lemma FilteredPrompt(history: seq<LlmMessage>, userText: string, groups: seq<Group>)
    requires ValidGroups(groups)
    ensures WithoutSystem(Prompt(history, userText, groups))
         == WithoutSystem(history) + [UserMessage(userText)] + FlattenGroups(groups)
  {
    var user, rest := UserMessage(userText), FlattenGroups(groups);
    GroupRoles(groups, rest);
    WithoutSystemConcat(history + [user], rest);
    WithoutSystemConcat(history, [user]);
    NothingToFilter([user]);
    NothingToFilter(rest);
  }

  lemma SanitizedAt(messages: seq<LlmMessage>, lastUser: nat)
    requires LastUserIndex(messages) == lastUser
    ensures Sanitized(messages) == WithoutTools(messages[..lastUser]) + messages[lastUser..]
  {
  }

  /** Only what stands before the last user message is cleaned. */
  lemma SanitizedAround(before: seq<LlmMessage>, user: LlmMessage, rest: seq<LlmMessage>)
    requires user.role == User && forall i :: 0 <= i < |rest| ==> rest[i].role != User
    ensures Sanitized(before + [user] + rest) == WithoutTools(before) + [user] + rest
  {
    LastUserOf(before, user, rest);
    Assoc(before, [user], rest);
    TakeDrop(before, [user] + rest);
    SanitizedAt(before + [user] + rest, |before|);
    Assoc(WithoutTools(before), [user], rest);
  }

  lemma SanitizedPrompt(history: seq<LlmMessage>, userText: string, groups: seq<Group>)
    requires ValidGroups(groups)
    ensures Sanitized(WithoutSystem(Prompt(history, userText, groups)))
         == HistoryTexts(history) + [UserMessage(userText)] + FlattenGroups(groups)
  {
    var rest := FlattenGroups(groups);
    FilteredPrompt(history, userText, groups);
    GroupRoles(groups, rest);
    SanitizedAround(WithoutSystem(history), UserMessage(userText), rest);
  }

  /** The contents of any prompt, in full: the history's texts, the user's message, and two entries for each tool
      group of the turn in progress. */
  lemma ContentsOfPrompt(history: seq<LlmMessage>, userText: string, groups: seq<Group>)
    requires ValidGroups(groups)
    ensures Contents(Prompt(history, userText, groups))
         == TextContents(HistoryTexts(history)) + [TextContent(UserMessage(userText))] + GroupContents(groups)
  {
    var texts, user := HistoryTexts(history), UserMessage(userText);
    SanitizedPrompt(history, userText, groups);
    WithoutToolsIsPlain(WithoutSystem(history));
    EntriesOfTexts(texts);
    EntriesSnoc(texts, user);
    EntriesOfGroups(texts + [user], groups);
  }

  // ---- Pairing ----

  lemma TextHasNoIds(message: LlmMessage)
    ensures CallIds(TextContent(message)) == [] && ResponseIds(TextContent(message)) == []
  {
    var parts := [Text(message.content)];
    assert TextContent(message).parts == parts && parts[..|parts| - 1] == [];
    assert CallIdsOf(parts) == CallIdsOf([]) == [];
    assert ResponseIdsOf(parts) == ResponseIdsOf([]) == [];
  }

  lemma IdsSnoc(parts: seq<Part>, last: Part)
    ensures CallIdsOf(parts + [last]) == if last.FunctionCall? then CallIdsOf(parts) + [last.id] else CallIdsOf(parts)
    ensures ResponseIdsOf(parts + [last])
         == if last.FunctionResponse? then ResponseIdsOf(parts) + [last.id] else ResponseIdsOf(parts)
  {
    assert (parts + [last])[..|parts|] == parts;
  }

  function IdsOf(calls: seq<ToolCall>): seq<string> {
    seq(|calls|, i requires 0 <= i < |calls| => calls[i].id)
  }

  function CallPart(call: ToolCall): Part {
    FunctionCall(call.id, call.toolName, call.arguments, call.thoughtSignature)
  }

  lemma CallPartsSplit(calls: seq<ToolCall>)
    requires calls != []
    ensures var n := |calls| - 1;
      && CallParts(calls) == CallParts(calls[..n]) + [CallPart(calls[n])]
      && IdsOf(calls) == IdsOf(calls[..n]) + [calls[n].id]
  {
  }

  lemma {:induction false} IdsOfCalls(text: seq<Part>, calls: seq<ToolCall>)
    requires CallIdsOf(text) == [] && ResponseIdsOf(text) == []
    ensures CallIdsOf(text + CallParts(calls)) == IdsOf(calls)
    ensures ResponseIdsOf(text + CallParts(calls)) == []
  {
    if calls == [] {
      assert text + CallParts(calls) == text;
    } else {
      var n := |calls| - 1;
      var front := CallParts(calls[..n]);
      IdsOfCalls(text, calls[..n]);
      CallPartsSplit(calls);
      Assoc(text, front, [CallPart(calls[n])]);
      IdsSnoc(text + front, CallPart(calls[n]));
    }
  }

  lemma {:induction false} IdsOfResponses(results: seq<LlmMessage>)
    ensures ResponseIds(ResponseContent(results))
         == seq(|results|, i requires 0 <= i < |results| => results[i].toolCallId)
    ensures CallIds(ResponseContent(results)) == []
  {
    if results != [] {
      var n := |results| - 1;
      IdsOfResponses(results[..n]);
      assert ResponseContent(results).parts[..n] == ResponseContent(results[..n]).parts;
    }
  }

  /** The two entries of one group answer each other. */
  lemma GroupPairs(group: Group)
    requires ValidGroup(group)
    ensures CallIds(RequestContent(group.request)) != [] && ResponseIds(RequestContent(group.request)) == []
    ensures ResponseIds(ResponseContent(group.results)) == CallIds(RequestContent(group.request))
    ensures CallIds(ResponseContent(group.results)) == []
  {
    var text := Trim(group.request.content);
    var calls := group.request.toolCalls;
    IdsSnoc([], Text(text));
    assert [] + [Text(text)] == [Text(text)];
    IdsOfCalls(if text != "" then [Text(text)] else [], calls);
    IdsOfResponses(group.results);
    assert seq(|group.results|, i requires 0 <= i < |group.results| => group.results[i].toolCallId) == IdsOf(calls);
    assert IdsOf(calls) != [];
  }

  ghost predicate EndsAnswered(contents: seq<Content>) {
    contents != [] ==> CallIds(contents[|contents| - 1]) == []
  }

  lemma OneMorePair(contents: seq<Content>, group: Group)
    requires WellPaired(contents) && EndsAnswered(contents) && ValidGroup(group)
    ensures WellPaired(contents + [RequestContent(group.request), ResponseContent(group.results)])
    ensures EndsAnswered(contents + [RequestContent(group.request), ResponseContent(group.results)])
  {
    GroupPairs(group);
    var longer := contents + [RequestContent(group.request), ResponseContent(group.results)];
    assert longer[|contents|] == RequestContent(group.request);
    assert longer[|contents| + 1] == ResponseContent(group.results);
    IdsOfResponses(group.results);
    forall i | 0 <= i < |longer| && CallIds(longer[i]) != []
      ensures longer[i].role == ModelSide && i + 1 < |longer| && longer[i + 1].role == UserSide
      ensures ResponseIds(longer[i + 1]) == CallIds(longer[i])
      ensures |longer[i + 1].parts| == |ResponseIds(longer[i + 1])|
    {
      if i < |contents| {
        assert longer[i] == contents[i];
        assert longer[i + 1] == contents[i + 1];
      }
    }
    forall i | 0 <= i < |longer| && ResponseIds(longer[i]) != []
      ensures i > 0 && CallIds(longer[i - 1]) != []
    {
      if i < |contents| {
        assert longer[i] == contents[i];
        assert longer[i - 1] == contents[i - 1];
      }
    }
  }

  lemma {:induction false} GroupsPair(before: seq<Content>, groups: seq<Group>)
    requires ValidGroups(groups)
    requires forall i :: 0 <= i < |before| ==> CallIds(before[i]) == [] && ResponseIds(before[i]) == []
    ensures WellPaired(before + GroupContents(groups)) && EndsAnswered(before + GroupContents(groups))
  {
    if groups == [] {
      assert before + GroupContents(groups) == before;
    } else {
      var n := |groups| - 1;
      GroupsPair(before, groups[..n]);
      OneMorePair(before + GroupContents(groups[..n]), groups[n]);
      Assoc(before, GroupContents(groups[..n]),
            [RequestContent(groups[n].request), ResponseContent(groups[n].results)]);
    }
  }

  /** The entries for the history and the new message. */
  function TextEntries(history: seq<LlmMessage>, userText: string): seq<Content> {
    TextContents(HistoryTexts(history)) + [TextContent(UserMessage(userText))]
  }

  lemma TextEntriesHaveNoIds(history: seq<LlmMessage>, userText: string)
    ensures forall entry :: entry in TextEntries(history, userText) ==> CallIds(entry) == [] && ResponseIds(entry) == []
  {
    var texts, entries := HistoryTexts(history), TextEntries(history, userText);
    forall i | 0 <= i < |entries|
      ensures CallIds(entries[i]) == [] && ResponseIds(entries[i]) == []
    {
      TextHasNoIds(if i < |texts| then texts[i] else UserMessage(userText));
    }
  }

  lemma TextEntriesStartWithUser(history: seq<LlmMessage>, userText: string)
    requires history != [] ==> history[0].role == User
    ensures StartsWithUser(TextEntries(history, userText))
  {
    if history != [] {
      WithoutSystemKeepsFirstUser(history);
      WithoutToolsIsPlain(WithoutSystem(history));
    }
  }

  lemma EntriesStayFirst(before: seq<Content>, after: seq<Content>)
    requires StartsWithUser(before)
    ensures StartsWithUser(before + after)
  {
  }

  /** Whatever was stored, a prompt's contents start with the user, every entry that calls functions is followed by one
      user entry with exactly the answers, in order, and no answer stands elsewhere. */
  lemma PromptIsWellPaired(history: seq<LlmMessage>, userText: string, groups: seq<Group>)
    requires ValidGroups(groups)
    requires history != [] ==> history[0].role == User
    ensures StartsWithUser(Contents(Prompt(history, userText, groups)))
    ensures WellPaired(Contents(Prompt(history, userText, groups)))
  {
    var before := TextEntries(history, userText);
    ContentsOfPrompt(history, userText, groups);
    TextEntriesHaveNoIds(history, userText);
    assert forall i :: 0 <= i < |before| ==> before[i] in before;
    GroupsPair(before, groups);
    TextEntriesStartWithUser(history, userText);
    EntriesStayFirst(before, GroupContents(groups));
  }
}
